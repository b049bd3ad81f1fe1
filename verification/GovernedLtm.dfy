/**
 * The governed long-term memory runtime: writes and mutations over entries, tombstones, the audit log
 * and the vector index. Step specifies one call; the class at the end carries it out field by field.
 *
 * Ids are numbered in the order the id factory issues them. The verdicts of policy, evaluator and guard,
 * the clock, and the places where storage fails are inputs of a call.
 */
module GovernedLtm {
  import opened Memory

  datatype Action = Create | Supersede | SoftDelete | HardDelete | PromoteGlobal | DemoteProject | CompactStm
  datatype AuditOutcome = Denied | Applied | Failed

  datatype Candidate = Candidate(
    kind: Kind, content: string, scope: Scope, project: Option<ProjectId>, confidence: real, sentiment: Sentiment,
    traceId: nat, tags: set<string>, mutability: Option<Mutability>,
    narrated: bool)  // context, action, outcome and reason are all given

  datatype AuditRecord = AuditRecord(
    sequence: nat, action: Action, outcome: AuditOutcome, project: Option<ProjectId>, target: Option<EntryId>,
    resulting: Option<EntryId>, tombstone: Option<EntryId>, occurredAt: Time)

  datatype Tombstone = Tombstone(target: EntryId, contentHash: Hash, mutation: MutationId, project: Option<ProjectId>,
                                 createdAt: Time)

  type Audit = map<MutationId, AuditRecord>

  // index maps an indexed id to the content its vector was made from.
  datatype State = State(entries: Entries, tombstones: map<EntryId, Tombstone>, audit: Audit,
                         index: map<EntryId, string>, nextId: nat)

  // embed: no vector could be made or stored. firstPut, secondPut: the document writes of the call, in order.
  // rollback: deleting the vector again. audit, failedAudit: appending the record of the call, or of its failure.
  datatype Faults = Faults(embed: bool, firstPut: bool, secondPut: bool, rollback: bool, audit: bool, failedAudit: bool)

  const RELIABLE := Faults(false, false, false, false, false, false)
  const REDACTED: string := "[hard-deleted]"

  datatype Request = Request(id: Option<MutationId>, action: Action, project: Option<ProjectId>,
                             target: Option<EntryId>, replacement: Option<Candidate>, requestedAt: Option<Time>)

  datatype Call =
    | Write(candidate: Candidate, project: Option<ProjectId>, policy: Option<bool>, approved: bool, at: Time,
            faults: Faults)
    | Mutate(request: Request, approved: bool, at: Time, faults: Faults)

  datatype Result = Returned(applied: bool, mutation: MutationId, resulting: Option<EntryId>,
                             tombstone: Option<EntryId>) | Thrown

  /******* The audit log *******/

  // The last sequence number in use; 0 for an empty log.
  ghost function LastSequence(audit: Audit): (n: nat)
    ensures forall id :: id in audit ==> audit[id].sequence <= n
    ensures if audit == map[] then n == 0 else exists id :: id in audit && audit[id].sequence == n
    decreases |audit|
  {
    if audit == map[] then 0
    else
      var id :| id in audit;
      var rest := audit - {id};
      var n := LastSequence(rest);
      assert forall k :: k in audit ==> k == id || (k in rest && rest[k] == audit[k]);
      if audit[id].sequence >= n then audit[id].sequence else n
  }

  // The record replaces an earlier one with the same mutation id, if there is one.
  ghost function Append(s: State, id: MutationId, r: AuditRecord): State {
    s.(audit := s.audit[id := r.(sequence := LastSequence(s.audit) + 1)])
  }

  /******* Applying a call *******/

  datatype Persisted = Stored(state: State, id: EntryId) | Refused(state: State)
  datatype Application = Done(state: State, resulting: EntryId, tombstone: Option<EntryId>) | Broken(state: State)

  function ResolveProject(c: Candidate, project: Option<ProjectId>): Option<ProjectId> {
    if c.scope == Global then None else if project.Some? then project else c.project
  }

  function CandidateToEntry(c: Candidate, project: Option<ProjectId>, now: Time, mutation: MutationId,
                            id: EntryId): Entry {
    Entry(id, c.kind, c.content, c.scope, project, c.confidence, c.sentiment, c.traceId, c.tags, now, now,
          if c.mutability.Some? then c.mutability.value else DomainVersioned, Active, None, None, None,
          if c.scope == Global then GlobalProbation else ProjectPlacement, Some(mutation), [])
  }

  predicate Supported(c: Candidate) {
    c.kind == ExperienceRecord ==> c.narrated
  }

  // Index the new entry, then store it; a refused store takes the vector out again, if it can.
  function Persist(s: State, c: Candidate, project: Option<ProjectId>, mutation: MutationId, now: Time, indexing: bool,
                   faults: Faults): Persisted {
    if !Supported(c) then Refused(s)
    else
      var id := s.nextId;
      var s1 := s.(nextId := id + 1);
      var entry := CandidateToEntry(c, ResolveProject(c, project), now, mutation, id);
      if indexing && faults.embed then Refused(s1)
      else
        var s2 := if indexing then s1.(index := s1.index[id := c.content]) else s1;
        if faults.firstPut || !Storable(entry) then
          Refused(if indexing && !faults.rollback then s2.(index := s2.index - {id}) else s2)
        else Stored(s2.(entries := s2.entries[id := entry]), id)
  }

  function DeleteEntry(e: Entry, hard: bool, tombstone: Option<EntryId>, mutation: MutationId, now: Time): Entry {
    e.(status := if hard then HardDeleted else SoftDeleted, deletedAt := Some(now), tombstone := tombstone,
       content := if hard then REDACTED else e.content, updatedAt := now, lastMutation := Some(mutation))
  }

  function MoveEntry(e: Entry, global: bool, project: Option<ProjectId>, mutation: MutationId, now: Time): Entry {
    e.(scope := if global then Global else Project,
       project := if global then None else if project.Some? then project else e.project,
       placement := if global then GlobalProbation else ProjectPlacement,
       updatedAt := now, lastMutation := Some(mutation))
  }

  function MomentOf(r: Request, at: Time): Time {
    if r.requestedAt.Some? then r.requestedAt.value else at
  }

  // A replacement takes mutability and project from the entry it replaces unless it brings its own.
  function Succeeding(c: Candidate, previous: Entry): Candidate {
    c.(mutability := if c.mutability.Some? then c.mutability else Some(previous.mutability))
  }

  function ProjectFor(r: Request, previous: Entry): Option<ProjectId> {
    if r.project.Some? then r.project else previous.project
  }

  function Apply(s: State, r: Request, mutation: MutationId, now: Time, indexing: bool, faults: Faults): Application {
    match r.action
    case Create =>
      if r.replacement.None? then Broken(s)
      else
        var p := Persist(s, r.replacement.value, r.project, mutation, now, indexing, faults);
        if p.Refused? then Broken(p.state) else Done(p.state, p.id, None)
    case Supersede =>
      if r.target.None? || r.replacement.None? || r.target.value !in s.entries then Broken(s)
      else
        var previous := s.entries[r.target.value];
        if previous.mutability != DomainVersioned || previous.status != Active then Broken(s)
        else
          var c := r.replacement.value;
          var c' := Succeeding(c, previous);
          var p := Persist(s, c', ProjectFor(r, previous), mutation, now, indexing, faults);
          if p.Refused? || faults.secondPut then Broken(p.state)
          else
            var closed := previous.(status := Superseded, supersededBy := Some(p.id), updatedAt := now,
                                    lastMutation := Some(mutation));
            Done(p.state.(entries := p.state.entries[previous.id := closed]), p.id, None)
    case SoftDelete =>
      if r.target.None? || r.target.value !in s.entries || faults.firstPut then Broken(s)
      else
        var e := s.entries[r.target.value];
        Done(s.(entries := s.entries[e.id := DeleteEntry(e, false, None, mutation, now)]), e.id, None)
    case HardDelete =>
      if r.target.None? || r.target.value !in s.entries then Broken(s)
      else
        var e := s.entries[r.target.value];
        if e.mutability == EvidenceImmutable || e.mutability == DeletionTombstone then Broken(s)
        else
          var t := s.nextId;
          var s1 := s.(nextId := t + 1);
          if faults.firstPut then Broken(s1)
          else
            var s2 := s1.(tombstones :=
                          s1.tombstones[t := Tombstone(e.id, Sha256(e.content), mutation, e.project, now)]);
            if faults.secondPut then Broken(s2)
            else Done(s2.(entries := s2.entries[e.id := DeleteEntry(e, true, Some(t), mutation, now)]), e.id, Some(t))
    case PromoteGlobal =>
      if r.target.None? || r.target.value !in s.entries || faults.firstPut then Broken(s)
      else
        var e := s.entries[r.target.value];
        Done(s.(entries := s.entries[e.id := MoveEntry(e, true, r.project, mutation, now)]), e.id, None)
    case DemoteProject =>
      if r.target.None? || r.target.value !in s.entries || faults.firstPut then Broken(s)
      else
        var e := s.entries[r.target.value];
        Done(s.(entries := s.entries[e.id := MoveEntry(e, false, r.project, mutation, now)]), e.id, None)
    case CompactStm => Broken(s)
  }

  predicate Typed(c: Candidate) {
    c.kind == Fact || c.kind == Preference
  }

  // Leave the record of a call that was turned down, unless the append fails.
  ghost function Deny(s: State, mutation: MutationId, record: AuditRecord, lost: bool): (State, Result) {
    if lost then (s, Thrown) else (Append(s, mutation, record), Returned(false, mutation, None, None))
  }

  // Persist a candidate and leave the record of that. There is no compensation for an append that fails.
  ghost function Commit(s: State, c: Candidate, project: Option<ProjectId>, mutation: MutationId, at: Time,
                        indexing: bool, faults: Faults): (State, Result)
  {
    var p := Persist(s, c, project, mutation, at, indexing, faults);
    if p.Refused? || faults.audit then (p.state, Thrown)
    else (Append(p.state, mutation,
                 AuditRecord(0, Create, Applied, ResolveProject(c, project), None, Some(p.id), None, at)),
          Returned(true, mutation, Some(p.id), None))
  }

  // A new entry, once it is known whether it is admitted.
  ghost function Admission(s: State, call: Call, admitted: bool, indexing: bool): (State, Result)
    requires call.Write?
  {
    var mutation, s1 := Issued(s.nextId), s.(nextId := s.nextId + 1);
    var c := call.candidate;
    if admitted then Commit(s1, c, call.project, mutation, call.at, indexing, call.faults)
    else
      Deny(s1, mutation, AuditRecord(0, Create, Denied, ResolveProject(c, call.project), None, None, None, call.at),
           call.faults.audit)
  }

  predicate Admitted(call: Call)
    requires call.Write?
  {
    call.policy != Some(false) && call.approved
  }

  ghost function WriteStep(s: State, call: Call, indexing: bool): (State, Result)
    requires call.Write?
  {
    if !Typed(call.candidate) then (s, Thrown) else Admission(s, call, Admitted(call), indexing)
  }

  // The project of a request that names none is that of its target.
  function WithProject(s: State, r: Request): Request {
    if r.project.None? && r.target.Some? && r.target.value in s.entries
      then r.(project := s.entries[r.target.value].project) else r
  }

  // The state a mutation starts from, once it has drawn its id.
  function Drawn(s: State, r: Request): State {
    if r.id.Some? then s else s.(nextId := s.nextId + 1)
  }

  function IdOf(s: State, r: Request): MutationId {
    if r.id.Some? then r.id.value else Issued(s.nextId)
  }

  function Applying(s: State, call: Call, indexing: bool): Application
    requires call.Mutate?
  {
    var r := WithProject(s, call.request);
    Apply(Drawn(s, r), r, IdOf(s, r), MomentOf(r, call.at), indexing, call.faults)
  }

  // Leave the record of an applied mutation, or else of its failure. Losing the first record makes it a failure.
  ghost function Conclude(a: Application, mutation: MutationId, record: AuditRecord, faults: Faults): (State, Result) {
    if a.Done? && !faults.audit then
      (Append(a.state, mutation, record.(outcome := Applied, resulting := Some(a.resulting), tombstone := a.tombstone)),
       Returned(true, mutation, Some(a.resulting), a.tombstone))
    else if faults.failedAudit then (a.state, Thrown)
    else (Append(a.state, mutation, record.(outcome := Failed)), Returned(false, mutation, None, None))
  }

  ghost function MutateStep(s: State, call: Call, indexing: bool): (State, Result)
    requires call.Mutate?
  {
    var r := WithProject(s, call.request);
    var mutation := IdOf(s, r);
    var s1 := Drawn(s, r);
    var now := MomentOf(r, call.at);
    var record := AuditRecord(0, r.action, Denied, r.project, r.target, None, None, now);
    if !call.approved then Deny(s1, mutation, record, call.faults.audit)
    else
      Conclude(Applying(s, call, indexing), mutation, record, call.faults)
  }

  ghost function Step(s: State, call: Call, indexing: bool): (State, Result) {
    if call.Write? then WriteStep(s, call, indexing) else MutateStep(s, call, indexing)
  }

  ghost function Run(s: State, calls: seq<Call>, indexing: bool): State
    decreases |calls|
  {
    if calls == [] then s else Run(Step(s, calls[0], indexing).0, calls[1..], indexing)
  }

  const EMPTY := State(map[], map[], map[], map[], 0)

  /******* What every state satisfies, whatever fails *******/

  ghost predicate WellLinked(e: Entry, id: EntryId, s: State) {
    && e.id == id < s.nextId
    && (e.supersededBy.Some? ==> e.supersededBy.value in s.entries && id < e.supersededBy.value)
    && (e.status == Active ==> e.supersededBy.None? && e.deletedAt.None? && e.tombstone.None?)
    && (e.status == Superseded ==> e.supersededBy.Some?)
    && (e.tombstone.Some? ==> e.tombstone.value in s.tombstones && s.tombstones[e.tombstone.value].target == id)
    && Storable(e)
  }

  ghost predicate Invariant(s: State) {
    && (forall id :: id in s.entries ==> WellLinked(s.entries[id], id, s))
    && (forall t :: t in s.tombstones ==> t < s.nextId)
    && (forall id :: id in s.index ==> id < s.nextId)
  }

  // The part of it that does not depend on who else writes the entries: ids are issued once.
  ghost predicate IdsIssued(s: State) {
    && (forall id :: id in s.entries ==> s.entries[id].id == id < s.nextId)
    && (forall t :: t in s.tombstones ==> t < s.nextId)
    && (forall id :: id in s.index ==> id < s.nextId)
  }

  lemma InvariantIssues(s: State)
    requires Invariant(s)
    ensures IdsIssued(s)
  {
    forall id | id in s.entries ensures s.entries[id].id == id < s.nextId {
      assert WellLinked(s.entries[id], id, s);
    }
  }

  // Some tombstone of the entry holds the hash of this content.
  ghost predicate Buried(s: State, id: EntryId, content: string) {
    exists t :: t in s.tombstones && s.tombstones[t].target == id && s.tombstones[t].contentHash == Sha256(content)
  }

  predicate Protected(e: Entry) {
    e.mutability == EvidenceImmutable || e.mutability == DeletionTombstone
  }

  // How an entry may change over time.
  ghost predicate EntryEvolves(e: Entry, e': Entry, s': State) {
    && e'.id == e.id && e'.kind == e.kind && e'.createdAt == e.createdAt && e'.mutability == e.mutability
    && (e.status != Active ==> e'.status != Active)
    && (e.supersededBy.Some? ==> e'.supersededBy == e.supersededBy)
    && (e'.content == e.content || (e'.content == REDACTED && Buried(s', e.id, e.content)))
    && (Protected(e) ==> e'.content == e.content)
  }

  // How the whole state may change: entries stay and evolve, new ones get new ids, tombstones and vectors stay.
  ghost predicate Evolves(s: State, s': State) {
    && s.nextId <= s'.nextId
    && (forall id :: id in s.entries ==> id in s'.entries && EntryEvolves(s.entries[id], s'.entries[id], s'))
    && (forall id :: id in s'.entries && id !in s.entries ==> s.nextId <= id)
    && (forall t :: t in s.tombstones ==> t in s'.tombstones && s'.tombstones[t] == s.tombstones[t])
    && (forall id :: id in s.index ==> id in s'.index && s'.index[id] == s.index[id])
  }

  lemma EvolvesTransitive(a: State, b: State, c: State)
    requires Invariant(a) && Evolves(a, b) && Evolves(b, c)
    ensures Evolves(a, c)
  {
    forall id | id in a.entries ensures EntryEvolves(a.entries[id], c.entries[id], c) {
      var x, y, z := a.entries[id], b.entries[id], c.entries[id];
      assert WellLinked(x, id, a) && EntryEvolves(x, y, b) && EntryEvolves(y, z, c);
      if y.content != x.content {
        var t :| t in b.tombstones && b.tombstones[t].target == id && b.tombstones[t].contentHash == Sha256(x.content);
        assert t in c.tombstones && c.tombstones[t] == b.tombstones[t];
      }
    }
  }

  lemma NewEntryIsSound(s: State, e: Entry)
    requires Invariant(s) && e.id !in s.entries && e.id == s.nextId - 1 && e.status == Active && e.supersededBy.None?
    requires e.deletedAt.None? && e.tombstone.None? && Storable(e)
    ensures var s' := s.(entries := s.entries[e.id := e]); Invariant(s')
  {
    var s' := s.(entries := s.entries[e.id := e]);
    forall id | id in s'.entries ensures WellLinked(s'.entries[id], id, s') {
      assert id in s.entries ==> WellLinked(s.entries[id], id, s);
    }
  }

  // A call that only adds: what was there is as it was.
  ghost predicate OnlyAdds(s: State, s': State) {
    && s.nextId <= s'.nextId && s'.tombstones == s.tombstones && s'.audit == s.audit
    && (forall id :: id in s.entries ==> id in s'.entries && s'.entries[id] == s.entries[id])
    && (forall id :: id in s'.entries && id !in s.entries ==> s.nextId <= id)
    && (forall id :: id in s.index ==> id in s'.index && s'.index[id] == s.index[id])
  }

  lemma AddingIsEvolution(s: State, s': State)
    requires Invariant(s) && OnlyAdds(s, s')
    ensures Evolves(s, s')
  {
    assert forall id :: id in s.entries ==> WellLinked(s.entries[id], id, s);
  }

  lemma PersistOnlyAdds(s: State, c: Candidate, project: Option<ProjectId>, mutation: MutationId, now: Time,
                        indexing: bool, faults: Faults)
    requires IdsIssued(s)
    ensures var p := Persist(s, c, project, mutation, now, indexing, faults);
            && OnlyAdds(s, p.state)
            && (p.Stored? ==> p.id == s.nextId && p.id !in s.entries && p.state.entries.Keys == s.entries.Keys + {p.id})
  {
    var p, id := Persist(s, c, project, mutation, now, indexing, faults), s.nextId;
    IdIsUnused(s);
    if !Supported(c) {
      assert p.state == s;
    } else if indexing && faults.embed {
      assert p.state == s.(nextId := id + 1);
    } else {
      var index := if indexing then s.index[id := c.content] else s.index;
      var entry := CandidateToEntry(c, ResolveProject(c, project), now, mutation, id);
      if faults.firstPut || !Storable(entry) {
        assert p.state == s.(nextId := id + 1, index := if indexing && !faults.rollback then index - {id} else index);
      } else {
        assert p.state == s.(nextId := id + 1, index := index, entries := s.entries[id := entry]);
      }
    }
  }

  lemma NextIdKeepsInvariant(s: State)
    requires Invariant(s)
    ensures Invariant(s.(nextId := s.nextId + 1))
  {
    var s' := s.(nextId := s.nextId + 1);
    forall id | id in s'.entries ensures WellLinked(s'.entries[id], id, s') {
      assert WellLinked(s.entries[id], id, s);
    }
  }

  lemma IdIsUnused(s: State)
    requires IdsIssued(s)
    ensures s.nextId !in s.entries && s.nextId !in s.index && s.nextId !in s.tombstones
  {
  }

  // The next id is drawn and the index rewritten, for ids up to that one.
  lemma RefuseKeepsInvariant(s: State, index: map<EntryId, string>)
    requires Invariant(s) && forall id :: id in index ==> id <= s.nextId
    ensures Invariant(s.(nextId := s.nextId + 1, index := index))
  {
    NextIdKeepsInvariant(s);
    IndexIsApart(s.(nextId := s.nextId + 1), s.(nextId := s.nextId + 1, index := index));
  }

  lemma StoreKeepsInvariant(s: State, e: Entry, index: map<EntryId, string>)
    requires Invariant(s) && forall id :: id in index ==> id <= s.nextId
    requires e.id == s.nextId && e.status == Active && e.supersededBy.None? && e.deletedAt.None? && e.tombstone.None?
    requires Storable(e)
    ensures Invariant(s.(nextId := s.nextId + 1, index := index, entries := s.entries[e.id := e]))
  {
    InvariantIssues(s);
    IdIsUnused(s);
    RefuseKeepsInvariant(s, index);
    NewEntryIsSound(s.(nextId := s.nextId + 1, index := index), e);
  }

  // The vectors once the next entry is indexed, and whether its vector stays if the store refuses the entry.
  function Indexed(s: State, content: string, stays: bool): map<EntryId, string> {
    if stays then s.index[s.nextId := content] else s.index - {s.nextId}
  }

  lemma IndexedIsIssued(s: State, content: string, stays: bool)
    requires Invariant(s)
    ensures forall id :: id in Indexed(s, content, stays) ==> id <= s.nextId
    ensures s.index - {s.nextId} == s.index == s.index[s.nextId := content] - {s.nextId}
  {
    assert s.nextId !in s.index;
  }

  lemma PersistKeepsInvariant(s: State, c: Candidate, project: Option<ProjectId>, mutation: MutationId, now: Time,
                              indexing: bool, faults: Faults)
    requires Invariant(s)
    ensures Invariant(Persist(s, c, project, mutation, now, indexing, faults).state)
  {
    var s' := Persist(s, c, project, mutation, now, indexing, faults).state;
    if Supported(c) {
      var entry := CandidateToEntry(c, ResolveProject(c, project), now, mutation, s.nextId);
      if indexing && faults.embed {
        assert s' == s.(nextId := s.nextId + 1);
        NextIdKeepsInvariant(s);
      } else if faults.firstPut || !Storable(entry) {
        var index := Indexed(s, c.content, indexing && faults.rollback);
        IndexedIsIssued(s, c.content, indexing && faults.rollback);
        assert s' == s.(nextId := s.nextId + 1, index := index);
        RefuseKeepsInvariant(s, index);
      } else {
        var index := Indexed(s, c.content, indexing);
        IndexedIsIssued(s, c.content, indexing);
        assert s' == s.(nextId := s.nextId + 1, index := index, entries := s.entries[s.nextId := entry]);
        StoreKeepsInvariant(s, entry, index);
      }
    }
  }

  lemma IndexIsApart(s: State, s': State)
    requires Invariant(s) && s' == s.(index := s'.index) && forall id :: id in s'.index ==> id < s.nextId
    ensures Invariant(s')
  {
    forall id | id in s'.entries ensures WellLinked(s'.entries[id], id, s') {
      assert WellLinked(s.entries[id], id, s);
    }
  }

  lemma PersistIsSound(s: State, c: Candidate, project: Option<ProjectId>, mutation: MutationId, now: Time,
                       indexing: bool, faults: Faults)
    requires Invariant(s)
    ensures var p := Persist(s, c, project, mutation, now, indexing, faults); Invariant(p.state) && Evolves(s, p.state)
  {
    PersistKeepsInvariant(s, c, project, mutation, now, indexing, faults);
    PersistOnlyAdds(s, c, project, mutation, now, indexing, faults);
    AddingIsEvolution(s, Persist(s, c, project, mutation, now, indexing, faults).state);
  }

  // Rewriting one entry in a way that respects the rules keeps the invariant.
  lemma RewriteIsSound(s: State, e': Entry)
    requires Invariant(s) && e'.id in s.entries && WellLinked(e', e'.id, s) && EntryEvolves(s.entries[e'.id], e', s)
    ensures var s' := s.(entries := s.entries[e'.id := e']); Invariant(s') && Evolves(s, s')
  {
    var s' := s.(entries := s.entries[e'.id := e']);
    forall id | id in s'.entries ensures WellLinked(s'.entries[id], id, s') {
      assert WellLinked(s.entries[id], id, s);
    }
    forall id | id in s.entries ensures EntryEvolves(s.entries[id], s'.entries[id], s') {
      var e := s'.entries[id];
      if id == e'.id && e.content != s.entries[id].content {
        assert Buried(s, id, s.entries[id].content) ==> Buried(s', id, s.entries[id].content);
      }
    }
  }

  lemma BuryIsSound(s: State, e: Entry, mutation: MutationId, now: Time)
    requires Invariant(s) && e.id in s.entries && s.entries[e.id] == e
    ensures var s' :=
            s.(nextId := s.nextId + 1,
               tombstones := s.tombstones[s.nextId := Tombstone(e.id, Sha256(e.content), mutation, e.project, now)]);
            Invariant(s') && Evolves(s, s') && Buried(s', e.id, e.content)
  {
    var t := s.nextId;
    var s' := s.(nextId := t + 1,
                 tombstones := s.tombstones[t := Tombstone(e.id, Sha256(e.content), mutation, e.project, now)]);
    assert t in s'.tombstones && s'.tombstones[t].target == e.id;
    forall id | id in s'.entries ensures WellLinked(s'.entries[id], id, s') {
      assert WellLinked(s.entries[id], id, s);
    }
  }

  lemma SupersedeUnfolds(s: State, r: Request, mutation: MutationId, now: Time, indexing: bool, faults: Faults)
    requires r.action == Supersede
    ensures !Replaceable(s, r) ==> Apply(s, r, mutation, now, indexing, faults) == Broken(s)
    ensures Replaceable(s, r) ==>
              var previous := s.entries[r.target.value];
              var p := Persist(s, Succeeding(r.replacement.value, previous), ProjectFor(r, previous), mutation, now,
                               indexing, faults);
              Apply(s, r, mutation, now, indexing, faults) ==
                if p.Refused? || faults.secondPut then Broken(p.state)
                else Done(p.state.(entries := p.state.entries[previous.id :=
                            previous.(status := Superseded, supersededBy := Some(p.id), updatedAt := now,
                                      lastMutation := Some(mutation))]), p.id, None)
  {
    hide Persist;
  }

  lemma SupersedeIsSound(s: State, r: Request, mutation: MutationId, now: Time, indexing: bool, faults: Faults)
    requires Invariant(s) && r.action == Supersede
    ensures var s' := Apply(s, r, mutation, now, indexing, faults).state; Invariant(s') && Evolves(s, s')
  {
    SupersedeUnfolds(s, r, mutation, now, indexing, faults);
    NextIdIsSound(s);
    if Replaceable(s, r) {
      var previous := s.entries[r.target.value];
      assert WellLinked(previous, r.target.value, s);
      var c' := Succeeding(r.replacement.value, previous);
      var project := ProjectFor(r, previous);
      var p := Persist(s, c', project, mutation, now, indexing, faults);
      PersistIsSound(s, c', project, mutation, now, indexing, faults);
      PersistOnlyAdds(s, c', project, mutation, now, indexing, faults);
      hide Apply, Persist;
      if p.Stored? && !faults.secondPut {
        var closed := previous.(status := Superseded, supersededBy := Some(p.id), updatedAt := now,
                                lastMutation := Some(mutation));
        CloseIsSound(s, p.state, previous, closed, p.id);
      }
    }
  }

  lemma CloseIsSound(s: State, s1: State, previous: Entry, closed: Entry, successor: EntryId)
    requires Invariant(s) && Invariant(s1) && Evolves(s, s1)
    requires previous.id in s1.entries && s1.entries[previous.id] == previous && previous.status == Active
    requires successor in s1.entries && previous.id < successor
    requires closed ==
             previous.(status := Superseded, supersededBy := Some(successor), updatedAt := closed.updatedAt,
                       lastMutation := closed.lastMutation)
    ensures var s' := s1.(entries := s1.entries[closed.id := closed]); Invariant(s') && Evolves(s, s')
  {
    assert WellLinked(previous, previous.id, s1);
    RewriteIsSound(s1, closed);
    EvolvesTransitive(s, s1, s1.(entries := s1.entries[closed.id := closed]));
  }

  lemma BuriedDeleteIsSound(s: State, e: Entry, mutation: MutationId, now: Time, s2: State, s3: State)
    requires Invariant(s) && e.id in s.entries && s.entries[e.id] == e && !Protected(e)
    requires s2 == s.(nextId := s.nextId + 1,
                      tombstones := s.tombstones[s.nextId :=
                                                 Tombstone(e.id, Sha256(e.content), mutation, e.project, now)])
    requires s3 == s2.(entries := s2.entries[e.id := DeleteEntry(e, true, Some(s.nextId), mutation, now)])
    ensures Invariant(s3) && Evolves(s, s3)
  {
    BuryIsSound(s, e, mutation, now);
    assert WellLinked(e, e.id, s2);
    RewriteIsSound(s2, DeleteEntry(e, true, Some(s.nextId), mutation, now));
    EvolvesTransitive(s, s2, s3);
  }

  lemma HardDeleteIsSound(s: State, r: Request, mutation: MutationId, now: Time, indexing: bool, faults: Faults)
    requires Invariant(s) && r.action == HardDelete
    ensures var s' := Apply(s, r, mutation, now, indexing, faults).state; Invariant(s') && Evolves(s, s')
  {
    var s' := Apply(s, r, mutation, now, indexing, faults).state;
    if r.target.None? || r.target.value !in s.entries || Protected(s.entries[r.target.value]) {
      assert s' == s;
      NextIdIsSound(s);
    } else if faults.firstPut {
      assert s' == s.(nextId := s.nextId + 1);
      NextIdIsSound(s);
    } else {
      var e := s.entries[r.target.value];
      assert e.id == r.target.value by { assert WellLinked(e, r.target.value, s); }
      var s2 := s.(nextId := s.nextId + 1,
                   tombstones := s.tombstones[s.nextId :=
                                              Tombstone(e.id, Sha256(e.content), mutation, e.project, now)]);
      var s3 := s2.(entries := s2.entries[e.id := DeleteEntry(e, true, Some(s.nextId), mutation, now)]);
      assert s' == if faults.secondPut then s2 else s3;
      if faults.secondPut {
        BuryIsSound(s, e, mutation, now);
      } else {
        BuriedDeleteIsSound(s, e, mutation, now, s2, s3);
      }
    }
  }

  lemma TouchIsSound(s: State, r: Request, mutation: MutationId, now: Time, indexing: bool, faults: Faults)
    requires Invariant(s) && (r.action == SoftDelete || r.action == PromoteGlobal || r.action == DemoteProject)
    ensures var s' := Apply(s, r, mutation, now, indexing, faults).state; Invariant(s') && Evolves(s, s')
  {
    NextIdIsSound(s);
    if r.target.Some? && r.target.value in s.entries {
      var e := s.entries[r.target.value];
      assert WellLinked(e, r.target.value, s);
      var e' := if r.action == SoftDelete then DeleteEntry(e, false, None, mutation, now)
                else MoveEntry(e, r.action == PromoteGlobal, r.project, mutation, now);
      RewriteIsSound(s, e');
      assert faults.firstPut
        || Apply(s, r, mutation, now, indexing, faults).state == s.(entries := s.entries[e'.id := e']);
    }
  }

  lemma ApplyIsSound(s: State, r: Request, mutation: MutationId, now: Time, indexing: bool, faults: Faults)
    requires Invariant(s)
    ensures var s' := Apply(s, r, mutation, now, indexing, faults).state; Invariant(s') && Evolves(s, s')
  {
    NextIdIsSound(s);
    match r.action
    case Create =>
      if r.replacement.Some? {
        PersistIsSound(s, r.replacement.value, r.project, mutation, now, indexing, faults);
      }
    case Supersede => SupersedeIsSound(s, r, mutation, now, indexing, faults);
    case HardDelete => HardDeleteIsSound(s, r, mutation, now, indexing, faults);
    case CompactStm =>
    case SoftDelete => TouchIsSound(s, r, mutation, now, indexing, faults);
    case PromoteGlobal => TouchIsSound(s, r, mutation, now, indexing, faults);
    case DemoteProject => TouchIsSound(s, r, mutation, now, indexing, faults);
  }

  // Nothing but the audit log differs.
  ghost predicate SameButAudit(s: State, s': State) {
    s' == s.(audit := s'.audit)
  }

  lemma AuditIsApart(s: State, s1: State, s': State)
    requires Invariant(s1) && Evolves(s, s1) && SameButAudit(s1, s')
    ensures Invariant(s') && Evolves(s, s')
  {
    forall id | id in s'.entries ensures WellLinked(s'.entries[id], id, s') {
      assert WellLinked(s1.entries[id], id, s1);
    }
    forall id | id in s.entries ensures EntryEvolves(s.entries[id], s'.entries[id], s') {
      assert EntryEvolves(s.entries[id], s1.entries[id], s1);
    }
  }

  lemma DenyIsSound(s: State, s1: State, mutation: MutationId, record: AuditRecord, lost: bool)
    requires Invariant(s1) && Evolves(s, s1)
    ensures var s' := Deny(s1, mutation, record, lost).0; Invariant(s') && Evolves(s, s')
  {
    AuditIsApart(s, s1, Deny(s1, mutation, record, lost).0);
  }

  lemma CommitIsSound(s: State, c: Candidate, project: Option<ProjectId>, mutation: MutationId, at: Time,
                      indexing: bool, faults: Faults)
    requires Invariant(s)
    ensures var s' := Commit(s, c, project, mutation, at, indexing, faults).0; Invariant(s') && Evolves(s, s')
  {
    PersistIsSound(s, c, project, mutation, at, indexing, faults);
    AuditIsApart(s, Persist(s, c, project, mutation, at, indexing, faults).state,
                 Commit(s, c, project, mutation, at, indexing, faults).0);
  }

  lemma AdmissionIsSound(s: State, call: Call, admitted: bool, indexing: bool)
    requires Invariant(s) && call.Write?
    ensures var s' := Admission(s, call, admitted, indexing).0; Invariant(s') && Evolves(s, s')
  {
    var mutation, s1 := Issued(s.nextId), s.(nextId := s.nextId + 1);
    var record := AuditRecord(0, Create, Denied, ResolveProject(call.candidate, call.project), None, None, None,
                              call.at);
    var s' := Admission(s, call, admitted, indexing).0;
    assert Invariant(s1) && Evolves(s, s1) by { NextIdIsSound(s); }
    if admitted {
      assert s' == Commit(s1, call.candidate, call.project, mutation, call.at, indexing, call.faults).0;
      assert Invariant(s') && Evolves(s1, s') by {
        CommitIsSound(s1, call.candidate, call.project, mutation, call.at, indexing, call.faults);
      }
      EvolvesTransitive(s, s1, s');
    } else {
      assert s' == Deny(s1, mutation, record, call.faults.audit).0;
      DenyIsSound(s, s1, mutation, record, call.faults.audit);
    }
  }

  lemma WriteIsSound(s: State, call: Call, indexing: bool)
    requires Invariant(s) && call.Write?
    ensures var s' := WriteStep(s, call, indexing).0; Invariant(s') && Evolves(s, s')
  {
    if Typed(call.candidate) {
      AdmissionIsSound(s, call, Admitted(call), indexing);
    } else {
      NextIdIsSound(s);
    }
  }

  lemma DeniedMutationIsSound(s: State, call: Call, indexing: bool)
    requires Invariant(s) && call.Mutate? && !call.approved
    ensures var s' := MutateStep(s, call, indexing).0; Invariant(s') && Evolves(s, s')
  {
    NextIdIsSound(s);
    AuditIsApart(s, Drawn(s, WithProject(s, call.request)), MutateStep(s, call, indexing).0);
  }

  lemma ApplyingIsSound(s: State, call: Call, indexing: bool)
    requires Invariant(s) && call.Mutate?
    ensures Invariant(Applying(s, call, indexing).state) && Evolves(s, Applying(s, call, indexing).state)
  {
    var r := WithProject(s, call.request);
    NextIdIsSound(s);
    ApplyIsSound(Drawn(s, r), r, IdOf(s, r), MomentOf(r, call.at), indexing, call.faults);
    EvolvesTransitive(s, Drawn(s, r), Applying(s, call, indexing).state);
  }

  lemma MutateIsSound(s: State, call: Call, indexing: bool)
    requires Invariant(s) && call.Mutate?
    ensures var s' := MutateStep(s, call, indexing).0; Invariant(s') && Evolves(s, s')
  {
    if !call.approved {
      DeniedMutationIsSound(s, call, indexing);
    } else {
      ApplyingIsSound(s, call, indexing);
      AuditIsApart(s, Applying(s, call, indexing).state, MutateStep(s, call, indexing).0);
    }
  }

  // One call, whatever fails during it: a successor exists and was issued later, only retired entries have
  // one, retired entries stay retired, and content is kept or redacted with its hash on a tombstone.
  lemma StepIsSound(s: State, call: Call, indexing: bool)
    requires Invariant(s)
    ensures var s' := Step(s, call, indexing).0; Invariant(s') && Evolves(s, s')
  {
    if call.Mutate? {
      MutateIsSound(s, call, indexing);
    } else {
      WriteIsSound(s, call, indexing);
    }
  }

  lemma NextIdIsSound(s: State)
    requires Invariant(s)
    ensures var s' := s.(nextId := s.nextId + 1); Invariant(s') && Evolves(s, s') && Evolves(s, s)
  {
    var s' := s.(nextId := s.nextId + 1);
    forall id | id in s'.entries ensures WellLinked(s'.entries[id], id, s') {
      assert WellLinked(s.entries[id], id, s);
    }
  }

  /******* Every run *******/

  // Over any run, whatever fails: the invariant holds at the end and every entry has only evolved.
  lemma {:induction false} RunIsSound(s: State, calls: seq<Call>, indexing: bool)
    requires Invariant(s)
    ensures Invariant(Run(s, calls, indexing)) && Evolves(s, Run(s, calls, indexing))
    decreases |calls|
  {
    NextIdIsSound(s);
    if calls != [] {
      var s1 := Step(s, calls[0], indexing).0;
      StepIsSound(s, calls[0], indexing);
      RunIsSound(s1, calls[1..], indexing);
      EvolvesTransitive(s, s1, Run(s1, calls[1..], indexing));
    }
  }

  // Seen from any point of a run that began empty: what was retired then is retired later, an entry keeps its
  // successor, and its content is what it was or is redacted with the hash of what it was on a tombstone.
  lemma LifecycleOverRuns(before: seq<Call>, after: seq<Call>, indexing: bool, id: EntryId)
    requires id in Run(EMPTY, before, indexing).entries
    ensures var s := Run(EMPTY, before, indexing); var s' := Run(s, after, indexing);
            && id in s'.entries
            && (s.entries[id].status != Active ==> s'.entries[id].status != Active)
            && (s.entries[id].supersededBy.Some? ==> s'.entries[id].supersededBy == s.entries[id].supersededBy)
            && (s'.entries[id].content == s.entries[id].content ||
                (s'.entries[id].content == REDACTED && Buried(s', id, s.entries[id].content)))
  {
    RunIsSound(EMPTY, before, indexing);
    RunIsSound(Run(EMPTY, before, indexing), after, indexing);
    var s := Run(EMPTY, before, indexing);
    assert WellLinked(s.entries[id], id, s);
    assert EntryEvolves(s.entries[id], Run(s, after, indexing).entries[id], Run(s, after, indexing));
  }

  // Following successors ends at an entry that has none.
  ghost function LatestVersion(s: State, id: EntryId): (last: EntryId)
    requires Invariant(s) && id in s.entries
    ensures last in s.entries && id <= last && s.entries[last].supersededBy.None?
    ensures s.entries[last].status != Superseded
    decreases s.nextId - id
  {
    assert WellLinked(s.entries[id], id, s);
    if s.entries[id].supersededBy.None? then id else LatestVersion(s, s.entries[id].supersededBy.value)
  }

  /******* What a hard delete leaves *******/

  // A hard delete buries the content it finds. The tombstone the entry then names holds the hash of the
  // original content exactly when the content had not been redacted or changed before.
  lemma HardDeleteBuriesWhatItFinds(s: State, call: Call, indexing: bool, original: string)
    requires Invariant(s) && call.Mutate? && call.request.action == HardDelete && call.request.target.Some?
    requires Step(s, call, indexing).1.Returned? && Step(s, call, indexing).1.applied
    ensures var id, s' := call.request.target.value, Step(s, call, indexing).0;
            && id in s.entries && id in s'.entries && s'.entries[id].content == REDACTED
               && s'.entries[id].status == HardDeleted
            && s'.entries[id].tombstone.Some? && s'.entries[id].tombstone == Step(s, call, indexing).1.tombstone
            && s'.entries[id].tombstone.value in s'.tombstones
            && (s'.tombstones[s'.entries[id].tombstone.value].contentHash == Sha256(original) <==>
                s.entries[id].content == original)
  {
    var r := WithProject(s, call.request);
    assert r.action == HardDelete && r.target == call.request.target;
    var a := Applying(s, call, indexing);
    assert a.Done?;
    assert WellLinked(s.entries[r.target.value], r.target.value, s);
  }

  function SampleCandidate(content: string): Candidate {
    Candidate(Fact, content, Project, None, 1.0, Neutral, 0, {}, None, false)
  }

  function DeleteCall(id: EntryId): Call {
    Mutate(Request(None, HardDelete, None, Some(id), None, None), true, 0, RELIABLE)
  }

  // A reliable, approved hard delete of an unprotected entry goes through.
  lemma HardDeleteApplies(s: State, id: EntryId)
    requires Invariant(s) && id in s.entries && !Protected(s.entries[id])
    ensures var (s', result) := Step(s, DeleteCall(id), false);
            && result.Returned? && result.applied && Invariant(s')
            && id in s'.entries && !Protected(s'.entries[id]) && s'.entries[id].content == REDACTED
            && s'.entries[id].tombstone.Some? && s'.entries[id].tombstone.value in s'.tombstones
            && s'.tombstones[s'.entries[id].tombstone.value].contentHash == Sha256(s.entries[id].content)
            && Buried(s', id, s.entries[id].content)
  {
    var call := DeleteCall(id);
    var (s', result) := Step(s, call, false);
    HardDeleteGoesThrough(s, id);
    StepIsSound(s, call, false);
    HardDeleteBuriesWhatItFinds(s, call, false, s.entries[id].content);
    assert EntryEvolves(s.entries[id], s'.entries[id], s');
    assert s'.tombstones[s'.entries[id].tombstone.value].target == id by { assert WellLinked(s'.entries[id], id, s'); }
  }

  lemma HardDeleteGoesThrough(s: State, id: EntryId)
    requires Invariant(s) && id in s.entries && !Protected(s.entries[id])
    ensures var result := Step(s, DeleteCall(id), false).1; result.Returned? && result.applied
  {
    var call := DeleteCall(id);
    var r := WithProject(s, call.request);
    assert r.action == HardDelete && r.target == Some(id) && r.id == None;
    assert Applying(s, call, false).Done?;
  }

  lemma BuriedStays(s: State, s': State, id: EntryId, content: string)
    requires Evolves(s, s') && Buried(s, id, content)
    ensures Buried(s', id, content)
  {
    var t :| t in s.tombstones && s.tombstones[t].target == id && s.tombstones[t].contentHash == Sha256(content);
    assert t in s'.tombstones && s'.tombstones[t] == s.tombstones[t];
  }

  lemma CreateApplies(content: string)
    ensures var s := Step(EMPTY, Write(SampleCandidate(content), None, None, true, 0, RELIABLE), false).0;
            && Invariant(s) && 1 in s.entries && !Protected(s.entries[1]) && s.entries[1].content == content
            && s.nextId == 2 && s.entries[1].mutability == DomainVersioned && s.entries[1].status == Active
  {
    StepIsSound(EMPTY, Write(SampleCandidate(content), None, None, true, 0, RELIABLE), false);
  }

  // Deleting hard twice leaves the entry naming a tombstone that holds the hash of the redaction text; the
  // hash of the original content is still there, on the first tombstone.
  lemma SecondHardDeleteRenamesTombstone() returns (calls: seq<Call>, id: EntryId)
    ensures var s := Run(EMPTY, calls, false);
            && id in s.entries && s.entries[id].tombstone.Some? && s.entries[id].tombstone.value in s.tombstones
            && s.tombstones[s.entries[id].tombstone.value].contentHash == Sha256(REDACTED)
            && Buried(s, id, "secret")
  {
    id := 1;
    var create, delete := Write(SampleCandidate("secret"), None, None, true, 0, RELIABLE), DeleteCall(id);
    CreateApplies("secret");
    var s1 := Step(EMPTY, create, false).0;
    HardDeleteApplies(s1, id);
    var s2 := Step(s1, delete, false).0;
    HardDeleteApplies(s2, id);
    StepIsSound(s2, delete, false);
    BuriedStays(s2, Step(s2, delete, false).0, id, "secret");
    calls := [create, delete, delete];
    RunOfThree(create, delete, delete);
  }

  lemma RunOfThree(a: Call, b: Call, c: Call)
    ensures Run(EMPTY, [a, b, c], false) == Step(Step(Step(EMPTY, a, false).0, b, false).0, c, false).0
  {
    var s1 := Step(EMPTY, a, false).0;
    var s2 := Step(s1, b, false).0;
    assert [a, b, c][1..] == [b, c] && [b, c][1..] == [c] && [c][1..] == [];
    assert Run(s2, [c], false) == Run(Step(s2, c, false).0, [], false);
    assert Run(s1, [b, c], false) == Run(s2, [c], false);
  }

  /******* What applied calls leave *******/

  // An entry as a candidate asks for it: active, of its own mutability class or versioned, placed by its scope, in the
  // project the call or the candidate names.
  ghost predicate Carries(e: Entry, c: Candidate, project: Option<ProjectId>, mutation: MutationId, now: Time) {
    && e.kind == c.kind && e.content == c.content && e.tags == c.tags && e.confidence == c.confidence
       && e.sentiment == c.sentiment && e.traceId == c.traceId && e.sources == []
    && e.mutability == (if c.mutability.Some? then c.mutability.value else DomainVersioned)
    && e.status == Active && e.supersededBy.None? && e.deletedAt.None? && e.tombstone.None?
    && e.createdAt == e.updatedAt == now && e.lastMutation == Some(mutation)
    && e.scope == c.scope && e.placement == (if c.scope == Global then GlobalProbation else ProjectPlacement)
    && (c.scope == Global ==> e.project.None?)
    && (c.scope == Project ==> e.project == if project.Some? then project else c.project)
  }

  lemma PersistStores(s: State, c: Candidate, project: Option<ProjectId>, mutation: MutationId, now: Time,
                      indexing: bool, faults: Faults)
    requires Persist(s, c, project, mutation, now, indexing, faults).Stored?
    ensures
      var p := Persist(s, c, project, mutation, now, indexing, faults);
      && p.id in p.state.entries && p.state.entries[p.id].id == p.id
         && Carries(p.state.entries[p.id], c, project, mutation, now)
      && (indexing ==> p.id in p.state.index && p.state.index[p.id] == c.content)
  {
  }

  lemma CommitStores(s: State, c: Candidate, project: Option<ProjectId>, mutation: MutationId, at: Time, indexing: bool,
                     faults: Faults)
    requires Commit(s, c, project, mutation, at, indexing, faults).1.Returned?
    ensures
      var (s', result) := Commit(s, c, project, mutation, at, indexing, faults);
      && result.applied && result.mutation == mutation && result.resulting.Some? && result.resulting.value in s'.entries
      && Carries(s'.entries[result.resulting.value], c, project, mutation, at)
      && (indexing ==> result.resulting.value in s'.index && s'.index[result.resulting.value] == c.content)
  {
    PersistStores(s, c, project, mutation, at, indexing, faults);
  }

  // What a commitment reports, and what it does to the data: an entry under a new id, or nothing.
  lemma CommitApplies(s: State, c: Candidate, project: Option<ProjectId>, mutation: MutationId, at: Time,
                      indexing: bool, faults: Faults)
    requires Invariant(s)
    ensures
      var (s', result) := Commit(s, c, project, mutation, at, indexing, faults);
      if Storing(c, indexing, faults) && !faults.audit then
        && result == Returned(true, mutation, Some(s.nextId), None)
        && s.nextId !in s.entries && s'.entries.Keys == s.entries.Keys + {s.nextId}
      else result == Thrown
  {
    PersistData(s, c, project, mutation, at, indexing, faults);
    var p := Persist(s, c, project, mutation, at, indexing, faults);
    if p.Stored? {
      assert p.id == s.nextId;
    }
  }

  // A write that applied stored what the candidate asked for, and indexed that content.
  lemma WriteStoresCandidate(s: State, call: Call, indexing: bool)
    requires call.Write? && Step(s, call, indexing).1.Returned? && Step(s, call, indexing).1.applied
    ensures
      var (s', result) := Step(s, call, indexing);
      && result.resulting.Some? && result.resulting.value in s'.entries
      && Carries(s'.entries[result.resulting.value], call.candidate, call.project, result.mutation, call.at)
      && (indexing ==> result.resulting.value in s'.index && s'.index[result.resulting.value] == call.candidate.content)
  {
    CommitStores(s.(nextId := s.nextId + 1), call.candidate, call.project, Issued(s.nextId), call.at, indexing,
                 call.faults);
  }

  // A supersession that applied stored the replacement, and changed of the previous version only its status, successor
  // and touch: it was an active, versioned entry. The replacement has its own mutability class if it brings one, and is
  // versioned otherwise; it inherits the project unless the request names one.
  lemma SupersedeLinks(s: State, r: Request, mutation: MutationId, now: Time, indexing: bool, faults: Faults)
    requires Invariant(s) && r.action == Supersede && Apply(s, r, mutation, now, indexing, faults).Done?
    ensures Replaceable(s, r)
    ensures
      var a := Apply(s, r, mutation, now, indexing, faults);
      var previous, c := s.entries[r.target.value], r.replacement.value;
      && a.resulting in a.state.entries && a.resulting !in s.entries && a.tombstone.None?
      && r.target.value in a.state.entries
      && a.state.entries[r.target.value]
           == previous.(status := Superseded, supersededBy := Some(a.resulting), updatedAt := now,
                        lastMutation := Some(mutation))
      && Carries(a.state.entries[a.resulting], c, if r.project.Some? then r.project else previous.project, mutation,
                 now)
      && (c.mutability.Some? ==> a.state.entries[a.resulting].mutability == c.mutability.value)
      && (indexing ==> a.resulting in a.state.index && a.state.index[a.resulting] == c.content)
      && (forall id :: id in s.entries && id != r.target.value ==>
            id in a.state.entries && a.state.entries[id] == s.entries[id])
  {
    var previous, c := s.entries[r.target.value], r.replacement.value;
    assert previous.id == r.target.value by { assert WellLinked(previous, r.target.value, s); }
    var c' := Succeeding(c, previous);
    var project := ProjectFor(r, previous);
    IdIsUnused(s);
    PersistOnlyAdds(s, c', project, mutation, now, indexing, faults);
    PersistStores(s, c', project, mutation, now, indexing, faults);
    var p := Persist(s, c', project, mutation, now, indexing, faults);
    var closed := previous.(status := Superseded, supersededBy := Some(p.id), updatedAt := now,
                            lastMutation := Some(mutation));
    assert Apply(s, r, mutation, now, indexing, faults).state ==
      p.state.(entries := p.state.entries[previous.id := closed]);
  }

  lemma HardDeleteNeedsDeletable(s: State, r: Request, mutation: MutationId, now: Time, indexing: bool, faults: Faults)
    requires r.action == HardDelete && !Deletable(s, r)
    ensures Apply(s, r, mutation, now, indexing, faults) == Broken(s)
  {
  }

  // A replacement that is to be immutable is so from then on: whatever happens in between, it keeps its content, and a
  // hard delete of it breaks.
  lemma ImmutableReplacementStays(s: State, r: Request, mutation: MutationId, now: Time, indexing: bool, faults: Faults,
                                  s': State, r': Request, mutation': MutationId, now': Time, faults': Faults)
    requires Invariant(s) && r.action == Supersede && Apply(s, r, mutation, now, indexing, faults).Done?
    requires r.replacement.value.mutability in {Some(EvidenceImmutable), Some(DeletionTombstone)}
    requires Evolves(Apply(s, r, mutation, now, indexing, faults).state, s') && r'.action == HardDelete
    requires r'.target == Some(Apply(s, r, mutation, now, indexing, faults).resulting)
    ensures r'.target.value in s'.entries && s'.entries[r'.target.value].content == r.replacement.value.content
    ensures Apply(s', r', mutation', now', indexing, faults') == Broken(s')
  {
    SupersedeLinks(s, r, mutation, now, indexing, faults);
    var a := Apply(s, r, mutation, now, indexing, faults);
    assert EntryEvolves(a.state.entries[a.resulting], s'.entries[a.resulting], s');
    HardDeleteNeedsDeletable(s', r', mutation', now', indexing, faults');
  }

  // A creation that applied adds the entry the candidate asks for, and its vector.
  lemma CreateAdds(s: State, r: Request, mutation: MutationId, now: Time, indexing: bool, faults: Faults)
    requires Invariant(s) && r.action == Create && Apply(s, r, mutation, now, indexing, faults).Done?
    ensures r.replacement.Some?
    ensures
      var a := Apply(s, r, mutation, now, indexing, faults);
      && a.resulting !in s.entries && a.tombstone.None? && OnlyAdds(s, a.state)
      && a.state.entries.Keys == s.entries.Keys + {a.resulting}
      && Carries(a.state.entries[a.resulting], r.replacement.value, r.project, mutation, now)
      && (indexing ==> a.resulting in a.state.index && a.state.index[a.resulting] == r.replacement.value.content)
  {
    PersistOnlyAdds(s, r.replacement.value, r.project, mutation, now, indexing, faults);
    PersistStores(s, r.replacement.value, r.project, mutation, now, indexing, faults);
  }

  // A soft delete that applied hides its target and keeps the content; it changes nothing else.
  lemma SoftDeleteHides(s: State, r: Request, mutation: MutationId, now: Time, indexing: bool, faults: Faults)
    requires Invariant(s) && r.action == SoftDelete && Apply(s, r, mutation, now, indexing, faults).Done?
    ensures r.target.Some? && r.target.value in s.entries
    ensures
      var a := Apply(s, r, mutation, now, indexing, faults);
      var e := s.entries[r.target.value];
      && a.resulting == r.target.value && a.tombstone.None?
      && a.state == s.(entries := s.entries[r.target.value :=
           e.(status := SoftDeleted, deletedAt := Some(now), tombstone := None, updatedAt := now,
              lastMutation := Some(mutation))])
  {
    assert WellLinked(s.entries[r.target.value], r.target.value, s);
  }

  // A hard delete that applied redacts its target, and leaves a tombstone that says what was deleted, by whom and when.
  lemma HardDeleteRedacts(s: State, r: Request, mutation: MutationId, now: Time, indexing: bool, faults: Faults)
    requires Invariant(s) && r.action == HardDelete && Apply(s, r, mutation, now, indexing, faults).Done?
    ensures r.target.Some? && r.target.value in s.entries
    ensures s.entries[r.target.value].mutability in {DomainVersioned, OperationalMetadata}
    ensures
      var a := Apply(s, r, mutation, now, indexing, faults);
      var e := s.entries[r.target.value];
      && a.resulting == r.target.value && a.tombstone.Some? && a.tombstone.value !in s.tombstones
      && a.state == s.(nextId := a.state.nextId,
           tombstones := s.tombstones[a.tombstone.value :=
                                      Tombstone(r.target.value, Sha256(e.content), mutation, e.project, now)],
           entries := s.entries[r.target.value :=
             e.(status := HardDeleted, deletedAt := Some(now), tombstone := a.tombstone, content := "[hard-deleted]",
                updatedAt := now, lastMutation := Some(mutation))])
  {
    assert WellLinked(s.entries[r.target.value], r.target.value, s);
    IdIsUnused(s);
  }

  // A move that applied rewrites scope, project and placement of its target, and changes nothing else.
  lemma MoveRelocates(s: State, r: Request, mutation: MutationId, now: Time, indexing: bool, faults: Faults)
    requires Invariant(s) && (r.action == PromoteGlobal || r.action == DemoteProject)
    requires Apply(s, r, mutation, now, indexing, faults).Done?
    ensures r.target.Some? && r.target.value in s.entries
    ensures
      var a := Apply(s, r, mutation, now, indexing, faults);
      var e := s.entries[r.target.value];
      var moved := e.(updatedAt := now, lastMutation := Some(mutation));
      && a.resulting == r.target.value && a.tombstone.None?
      && a.state == s.(entries := s.entries[r.target.value :=
           if r.action == PromoteGlobal then moved.(scope := Global, project := None, placement := GlobalProbation)
           else moved.(scope := Project, project := if r.project.Some? then r.project else e.project,
                       placement := ProjectPlacement)])
  {
    assert WellLinked(s.entries[r.target.value], r.target.value, s);
  }

  // The request as a call carries it out: with the project of its target if it names none, under the id it brings or
  // the next one, at the moment it names or the present one.
  lemma MutationIsApplied(s: State, call: Call, indexing: bool)
    requires call.Mutate? && Step(s, call, indexing).1.Returned? && Step(s, call, indexing).1.applied
    ensures
      var (s', result) := Step(s, call, indexing);
      var r := call.request;
      var found := r.project.None? && r.target.Some? && r.target.value in s.entries;
      var project := if found then s.entries[r.target.value].project else r.project;
      var s1 := if r.id.Some? then s else s.(nextId := s.nextId + 1);
      var a := Apply(s1, r.(project := project), result.mutation,
                     if r.requestedAt.Some? then r.requestedAt.value else call.at, indexing, call.faults);
      && call.approved && a.Done? && SameData(a.state, s')
      && result.mutation == (if r.id.Some? then r.id.value else Issued(s.nextId))
      && result.resulting == Some(a.resulting) && result.tombstone == a.tombstone
  {
  }

  // What a mutation needs of its target, its candidate and the storage.
  predicate CanApply(s: State, r: Request, indexing: bool, faults: Faults) {
    match r.action
    case Create => r.replacement.Some? && Storing(r.replacement.value, indexing, faults)
    case Supersede => Replaceable(s, r) && Storing(r.replacement.value, indexing, faults) && !faults.secondPut
    case HardDelete => Deletable(s, r) && !faults.firstPut && !faults.secondPut
    case CompactStm => false
    case _ => Found(s, r) && !faults.firstPut
  }

  lemma ApplyExactly(s: State, r: Request, mutation: MutationId, now: Time, indexing: bool, faults: Faults)
    requires Invariant(s)
    ensures Apply(s, r, mutation, now, indexing, faults).Done? <==> CanApply(s, r, indexing, faults)
  {
    if r.action == Create && r.replacement.Some? {
      PersistData(s, r.replacement.value, r.project, mutation, now, indexing, faults);
    } else if r.action == Supersede && Replaceable(s, r) {
      var previous, c := s.entries[r.target.value], r.replacement.value;
      PersistData(s, Succeeding(c, previous), ProjectFor(r, previous), mutation, now, indexing, faults);
      assert Storing(Succeeding(c, previous), indexing, faults) == Storing(c, indexing, faults);
    }
  }

  // The project a request is completed with, and the id it draws, do not decide whether it can apply.
  lemma CanApplyStill(s: State, r: Request, indexing: bool, faults: Faults)
    ensures CanApply(Drawn(s, WithProject(s, r)), WithProject(s, r), indexing, faults) ==
            CanApply(s, r, indexing, faults)
  {
  }

  lemma MutationAppliesExactly(s: State, call: Call, indexing: bool)
    requires Invariant(s) && call.Mutate?
    ensures var result := MutateStep(s, call, indexing).1;
            result.Returned? && result.applied <==>
              call.approved && CanApply(s, call.request, indexing, call.faults) && !call.faults.audit
  {
    var r := WithProject(s, call.request);
    var s1 := Drawn(s, r);
    NextIdKeepsInvariant(s);
    ApplyExactly(s1, r, IdOf(s, r), MomentOf(r, call.at), indexing, call.faults);
    CanApplyStill(s, call.request, indexing, call.faults);
    hide Apply, CanApply, Append, Invariant;
  }

  // When a call applies: a write, if it is of a kind that is written here, nobody objects, and neither its entry nor
  // its record is lost; a mutation, if it is approved and can apply, and its record is not lost.
  lemma CallAppliesExactly(s: State, call: Call, indexing: bool)
    requires Invariant(s)
    ensures
      var result := Step(s, call, indexing).1;
      result.Returned? && result.applied <==>
        if call.Write? then
          && call.candidate.kind in {Fact, Preference} && call.policy != Some(false) && call.approved
          && Storing(call.candidate, indexing, call.faults) && !call.faults.audit
        else call.approved && CanApply(s, call.request, indexing, call.faults) && !call.faults.audit
  {
    if call.Write? {
      var s1 := s.(nextId := s.nextId + 1);
      NextIdKeepsInvariant(s);
      CommitApplies(s1, call.candidate, call.project, Issued(s.nextId), call.at, indexing, call.faults);
      hide Append, Commit, Invariant;
    } else {
      MutationAppliesExactly(s, call, indexing);
      hide MutateStep, CanApply, Invariant;
    }
  }

  // When it throws: a write, if it is of another kind, if it is denied and the record of that is lost, or if it is not
  // and its entry or record is lost; a mutation, if the last record it tries to leave is lost.
  lemma CallThrowsExactly(s: State, call: Call, indexing: bool)
    requires Invariant(s)
    ensures
      Step(s, call, indexing).1.Thrown? <==>
        if call.Write? then
          || call.candidate.kind !in {Fact, Preference} || call.faults.audit
          || (call.policy != Some(false) && call.approved && !Storing(call.candidate, indexing, call.faults))
        else if !call.approved then call.faults.audit
        else call.faults.failedAudit && (call.faults.audit || !CanApply(s, call.request, indexing, call.faults))
  {
    hide Append;
    CallAppliesExactly(s, call, indexing);
    if call.Write? {
      var s1 := s.(nextId := s.nextId + 1);
      NextIdKeepsInvariant(s);
      CommitApplies(s1, call.candidate, call.project, Issued(s.nextId), call.at, indexing, call.faults);
    }
  }

  // Moving a project entry to global scope and back restores it, but for touch and last mutation, exactly when the
  // demotion names its project: the promotion forgets it.
  lemma PromoteThenDemote(e: Entry, project: Option<ProjectId>, named: Option<ProjectId>, m1: MutationId,
                          m2: MutationId, t1: Time, t2: Time)
    requires e.scope == Project && e.placement == ProjectPlacement
    ensures
      var back := MoveEntry(MoveEntry(e, true, project, m1, t1), false, named, m2, t2);
      back == e.(updatedAt := t2, lastMutation := Some(m2)) <==> named == e.project
  {
    var back := MoveEntry(MoveEntry(e, true, project, m1, t1), false, named, m2, t2);
    assert back.project == named;
    assert back == e.(project := named, updatedAt := t2, lastMutation := Some(m2));
  }

  // Hard-deleted is not a final status: a soft delete that applies takes the entry's tombstone reference away, while
  // the content stays redacted.
  lemma SoftDeleteOverHardDelete(s: State, r: Request, mutation: MutationId, now: Time, indexing: bool, faults: Faults)
    requires Invariant(s) && r.action == SoftDelete && Apply(s, r, mutation, now, indexing, faults).Done?
    requires r.target.Some? && r.target.value in s.entries && s.entries[r.target.value].status == HardDeleted
    ensures
      var s' := Apply(s, r, mutation, now, indexing, faults).state;
      && r.target.value in s'.entries
      && s'.entries[r.target.value].status == SoftDeleted && s'.entries[r.target.value].tombstone.None?
      && s'.entries[r.target.value].content == s.entries[r.target.value].content
      && s'.tombstones == s.tombstones
  {
    assert WellLinked(s.entries[r.target.value], r.target.value, s);
  }

  /******* Calls that do not apply *******/

  ghost predicate SameData(s: State, s': State) {
    s'.entries == s.entries && s'.tombstones == s.tombstones && s'.index == s.index
  }

  // The target can take the action.
  predicate Deletable(s: State, r: Request) {
    r.target.Some? && r.target.value in s.entries && !Protected(s.entries[r.target.value])
  }

  predicate Replaceable(s: State, r: Request) {
    && r.target.Some? && r.replacement.Some? && r.target.value in s.entries
    && s.entries[r.target.value].mutability == DomainVersioned && s.entries[r.target.value].status == Active
  }

  // A new entry reaches the document store, and is taken there.
  predicate Storing(c: Candidate, indexing: bool, faults: Faults) {
    && (c.kind == ExperienceRecord ==> c.narrated) && c.kind != DistilledPattern
    && !(indexing && faults.embed) && !faults.firstPut
  }

  // Its vector goes in, the document does not, and the vector stays.
  predicate LeavesVector(c: Candidate, indexing: bool, faults: Faults) {
    && indexing && (c.kind == ExperienceRecord ==> c.narrated) && !faults.embed && faults.rollback
    && (faults.firstPut || c.kind == DistilledPattern)
  }

  // The two ways a mutation can break and yet leave something behind.
  predicate BreaksHalfway(s: State, r: Request, indexing: bool, faults: Faults) {
    match r.action
    case Create => r.replacement.Some? && LeavesVector(r.replacement.value, indexing, faults)
    case Supersede => Replaceable(s, r)
      && (LeavesVector(r.replacement.value, indexing, faults) || Storing(r.replacement.value, indexing, faults))
    case HardDelete => Deletable(s, r) && !faults.firstPut
    case _ => false
  }

  lemma PersistData(s: State, c: Candidate, project: Option<ProjectId>, mutation: MutationId, now: Time, indexing: bool,
                    faults: Faults)
    requires IdsIssued(s)
    ensures var p := Persist(s, c, project, mutation, now, indexing, faults);
            && (p.Stored? <==> Storing(c, indexing, faults))
            && (p.Stored? ==> p.state.entries.Keys == s.entries.Keys + {s.nextId} && s.nextId !in s.entries)
            && (p.Refused? ==> (SameData(s, p.state) <==> !LeavesVector(c, indexing, faults)))
            && (p.Refused? ==> p.state.entries == s.entries)
            && (indexing && p.Stored? ==> p.state.index == s.index[s.nextId := c.content])
  {
    IdIsUnused(s);
    var p := Persist(s, c, project, mutation, now, indexing, faults);
    var id, index := s.nextId, s.index[s.nextId := c.content];
    if !Supported(c) || (indexing && faults.embed) {
      assert p.Refused? && SameData(s, p.state);
    } else if faults.firstPut || c.kind == DistilledPattern {
      assert p.Refused? && p.state.entries == s.entries && p.state.tombstones == s.tombstones;
      assert p.state.index == if !indexing then s.index else if faults.rollback then index else index - {id};
      assert index - {id} == s.index && id in index;
    } else {
      assert p.Stored?
        && p.state.entries == s.entries[id := CandidateToEntry(c, ResolveProject(c, project), now, mutation, id)];
      assert p.state.index == if indexing then index else s.index;
    }
  }

  lemma BrokenSupersede(s: State, r: Request, mutation: MutationId, now: Time, indexing: bool, faults: Faults)
    requires Invariant(s) && r.action == Supersede && Apply(s, r, mutation, now, indexing, faults).Broken?
    ensures SameData(s, Apply(s, r, mutation, now, indexing, faults).state) <==> !BreaksHalfway(s, r, indexing, faults)
  {
    if Replaceable(s, r) {
      var previous, c := s.entries[r.target.value], r.replacement.value;
      var c' := Succeeding(c, previous);
      PersistData(s, c', ProjectFor(r, previous), mutation, now, indexing, faults);
      assert Storing(c, indexing, faults) == Storing(c', indexing, faults);
      assert LeavesVector(c, indexing, faults) == LeavesVector(c', indexing, faults);
    }
  }

  lemma BrokenHardDelete(s: State, r: Request, mutation: MutationId, now: Time, indexing: bool, faults: Faults)
    requires Invariant(s) && r.action == HardDelete && Apply(s, r, mutation, now, indexing, faults).Broken?
    ensures SameData(s, Apply(s, r, mutation, now, indexing, faults).state) <==> !BreaksHalfway(s, r, indexing, faults)
  {
    assert s.nextId !in s.tombstones;
    if Deletable(s, r) && !faults.firstPut {
      assert s.nextId in Apply(s, r, mutation, now, indexing, faults).state.tombstones;
    }
  }

  lemma BrokenApplication(s: State, r: Request, mutation: MutationId, now: Time, indexing: bool, faults: Faults)
    requires Invariant(s) && Apply(s, r, mutation, now, indexing, faults).Broken?
    ensures SameData(s, Apply(s, r, mutation, now, indexing, faults).state) <==> !BreaksHalfway(s, r, indexing, faults)
  {
    match r.action
    case Create =>
      if r.replacement.Some? {
        PersistData(s, r.replacement.value, r.project, mutation, now, indexing, faults);
      }
    case Supersede => BrokenSupersede(s, r, mutation, now, indexing, faults);
    case HardDelete => BrokenHardDelete(s, r, mutation, now, indexing, faults);
    case _ =>
  }

  // A mutation that breaks leaves entries, tombstones and vectors as they were exactly when it does not break
  // halfway: after its first write, or with its vector stuck in the index.
  lemma BrokenMutationExactly(s: State, call: Call, indexing: bool)
    requires Invariant(s) && call.Mutate? && call.approved && Applying(s, call, indexing).Broken?
    ensures SameData(s, Applying(s, call, indexing).state) <==>
            !BreaksHalfway(s, WithProject(s, call.request), indexing, call.faults)
  {
    var r := WithProject(s, call.request);
    NextIdIsSound(s);
    BrokenApplication(Drawn(s, r), r, IdOf(s, r), MomentOf(r, call.at), indexing, call.faults);
  }

  // What a soft delete leaves is there already.
  predicate AlreadySoftDeleted(e: Entry, mutation: MutationId, now: Time) {
    && e.status == SoftDeleted && e.deletedAt == Some(now) && e.tombstone.None?
    && e.updatedAt == now && e.lastMutation == Some(mutation)
  }

  // What a move to global or project scope leaves is there already.
  predicate AlreadyMoved(e: Entry, global: bool, project: Option<ProjectId>, mutation: MutationId, now: Time) {
    && e.updatedAt == now && e.lastMutation == Some(mutation)
    && (if global then e.scope == Global && e.project.None? && e.placement == GlobalProbation
        else e.scope == Project && (project.Some? ==> e.project == project) && e.placement == ProjectPlacement)
  }

  predicate Found(s: State, r: Request) {
    r.target.Some? && r.target.value in s.entries
  }

  // A new entry, or at least its vector, stays behind.
  predicate Deposits(c: Candidate, indexing: bool, faults: Faults) {
    Storing(c, indexing, faults) || LeavesVector(c, indexing, faults)
  }

  // An approved mutation changes entries, tombstones or vectors, in terms of its target, its candidate and the faults.
  predicate MutationAlters(s: State, r: Request, mutation: MutationId, now: Time, indexing: bool, faults: Faults) {
    match r.action
    case Create => r.replacement.Some? && Deposits(r.replacement.value, indexing, faults)
    case Supersede => Replaceable(s, r) && Deposits(r.replacement.value, indexing, faults)
    case SoftDelete => Found(s, r) && !faults.firstPut && !AlreadySoftDeleted(s.entries[r.target.value], mutation, now)
    case HardDelete => Deletable(s, r) && !faults.firstPut
    case PromoteGlobal =>
      Found(s, r) && !faults.firstPut && !AlreadyMoved(s.entries[r.target.value], true, r.project, mutation, now)
    case DemoteProject =>
      Found(s, r) && !faults.firstPut && !AlreadyMoved(s.entries[r.target.value], false, r.project, mutation, now)
    case CompactStm => false
  }

  predicate Alters(s: State, call: Call, indexing: bool) {
    if call.Write? then
      && call.candidate.kind in {Fact, Preference} && call.policy != Some(false) && call.approved
      && Deposits(call.candidate, indexing, call.faults)
    else
      var r := WithProject(s, call.request);
      call.approved && MutationAlters(s, r, IdOf(s, r), MomentOf(r, call.at), indexing, call.faults)
  }

  lemma CommitAlters(s: State, c: Candidate, project: Option<ProjectId>, mutation: MutationId, at: Time, indexing: bool,
                     faults: Faults)
    requires Invariant(s)
    ensures SameData(s, Commit(s, c, project, mutation, at, indexing, faults).0) <==> !Deposits(c, indexing, faults)
  {
    PersistData(s, c, project, mutation, at, indexing, faults);
    var p := Persist(s, c, project, mutation, at, indexing, faults);
    assert SameData(p.state, Commit(s, c, project, mutation, at, indexing, faults).0);
  }

  lemma AdmissionAlters(s: State, call: Call, admitted: bool, indexing: bool)
    requires Invariant(s) && call.Write?
    ensures SameData(s, Admission(s, call, admitted, indexing).0) <==>
            !(admitted && Deposits(call.candidate, indexing, call.faults))
  {
    if admitted {
      NextIdKeepsInvariant(s);
      CommitAlters(s.(nextId := s.nextId + 1), call.candidate, call.project, Issued(s.nextId), call.at, indexing,
                   call.faults);
    }
  }

  lemma NewEntryAlters(s: State, r: Request, mutation: MutationId, now: Time, indexing: bool, faults: Faults)
    requires Invariant(s) && (r.action == Create || r.action == Supersede)
    ensures SameData(s, Apply(s, r, mutation, now, indexing, faults).state) <==>
            !MutationAlters(s, r, mutation, now, indexing, faults)
  {
    var a := Apply(s, r, mutation, now, indexing, faults);
    if r.action == Create {
      if r.replacement.Some? {
        PersistData(s, r.replacement.value, r.project, mutation, now, indexing, faults);
      }
    } else if Replaceable(s, r) {
      var previous, c := s.entries[r.target.value], r.replacement.value;
      var c' := Succeeding(c, previous);
      var project := ProjectFor(r, previous);
      assert Deposits(c, indexing, faults) == Deposits(c', indexing, faults);
      PersistData(s, c', project, mutation, now, indexing, faults);
      var p := Persist(s, c', project, mutation, now, indexing, faults);
      if p.Stored? {
        assert s.nextId in p.state.entries && s.nextId !in s.entries;
        assert s.nextId in a.state.entries;
      } else {
        assert a.state == p.state;
      }
    } else {
      assert a.state == s;
    }
  }

  lemma DeleteAlters(s: State, r: Request, mutation: MutationId, now: Time, indexing: bool, faults: Faults)
    requires Invariant(s) && (r.action == SoftDelete || r.action == HardDelete)
    ensures SameData(s, Apply(s, r, mutation, now, indexing, faults).state) <==>
            !MutationAlters(s, r, mutation, now, indexing, faults)
  {
    var a := Apply(s, r, mutation, now, indexing, faults);
    IdIsUnused(s);
    if Found(s, r) && !faults.firstPut {
      var e := s.entries[r.target.value];
      assert e.id == r.target.value by { assert WellLinked(e, r.target.value, s); }
      if r.action == SoftDelete {
        var e' := DeleteEntry(e, false, None, mutation, now);
        assert a.state == s.(entries := s.entries[e.id := e']);
        assert s.entries[e.id := e'] == s.entries <==> e' == e;
        assert e' == e <==> AlreadySoftDeleted(e, mutation, now);
      } else if !Protected(e) {
        assert s.nextId in a.state.tombstones;
      }
    }
  }

  lemma MoveAlters(s: State, r: Request, mutation: MutationId, now: Time, indexing: bool, faults: Faults)
    requires Invariant(s) && (r.action == PromoteGlobal || r.action == DemoteProject)
    ensures SameData(s, Apply(s, r, mutation, now, indexing, faults).state) <==>
            !MutationAlters(s, r, mutation, now, indexing, faults)
  {
    if Found(s, r) && !faults.firstPut {
      var e := s.entries[r.target.value];
      assert e.id == r.target.value by { assert WellLinked(e, r.target.value, s); }
      var e' := MoveEntry(e, r.action == PromoteGlobal, r.project, mutation, now);
      assert Apply(s, r, mutation, now, indexing, faults).state == s.(entries := s.entries[e.id := e']);
      assert s.entries[e.id := e'] == s.entries <==> e' == e;
      assert e' == e <==> AlreadyMoved(e, r.action == PromoteGlobal, r.project, mutation, now);
    }
  }

  lemma ApplicationAlters(s: State, r: Request, mutation: MutationId, now: Time, indexing: bool, faults: Faults)
    requires Invariant(s)
    ensures SameData(s, Apply(s, r, mutation, now, indexing, faults).state) <==>
            !MutationAlters(s, r, mutation, now, indexing, faults)
  {
    match r.action
    case Create => NewEntryAlters(s, r, mutation, now, indexing, faults);
    case Supersede => NewEntryAlters(s, r, mutation, now, indexing, faults);
    case SoftDelete => DeleteAlters(s, r, mutation, now, indexing, faults);
    case HardDelete => DeleteAlters(s, r, mutation, now, indexing, faults);
    case PromoteGlobal => MoveAlters(s, r, mutation, now, indexing, faults);
    case DemoteProject => MoveAlters(s, r, mutation, now, indexing, faults);
    case CompactStm =>
  }

  lemma DrawnAlters(s: State, r: Request, mutation: MutationId, now: Time, indexing: bool, faults: Faults)
    ensures MutationAlters(Drawn(s, r), r, mutation, now, indexing, faults) ==
            MutationAlters(s, r, mutation, now, indexing, faults)
  {
    assert Drawn(s, r).entries == s.entries;
  }

  lemma ConcludeKeepsData(a: Application, mutation: MutationId, record: AuditRecord, faults: Faults)
    ensures SameData(a.state, Conclude(a, mutation, record, faults).0)
  {
  }

  lemma ApprovedAlters(s: State, call: Call, indexing: bool)
    requires Invariant(s) && call.Mutate? && call.approved
    ensures SameData(s, Applying(s, call, indexing).state) <==> !Alters(s, call, indexing)
  {
    var r := WithProject(s, call.request);
    assert Invariant(Drawn(s, r)) by { NextIdKeepsInvariant(s); }
    ApplicationAlters(Drawn(s, r), r, IdOf(s, r), MomentOf(r, call.at), indexing, call.faults);
    DrawnAlters(s, r, IdOf(s, r), MomentOf(r, call.at), indexing, call.faults);
  }

  lemma MutateAlters(s: State, call: Call, indexing: bool)
    requires Invariant(s) && call.Mutate?
    ensures SameData(s, MutateStep(s, call, indexing).0) <==> !Alters(s, call, indexing)
  {
    if call.approved {
      var r := WithProject(s, call.request);
      var record := AuditRecord(0, r.action, Denied, r.project, r.target, None, None, MomentOf(r, call.at));
      ApprovedAlters(s, call, indexing);
      assert MutateStep(s, call, indexing) == Conclude(Applying(s, call, indexing), IdOf(s, r), record, call.faults);
      ConcludeKeepsData(Applying(s, call, indexing), IdOf(s, r), record, call.faults);
    }
  }

  // Whatever a call reports, and whatever fails during it: entries, tombstones and vectors are as they were if and only
  // if its verdicts, target, candidate and faults did not let it change them.
  lemma CallAltersExactly(s: State, call: Call, indexing: bool)
    requires Invariant(s)
    ensures SameData(s, Step(s, call, indexing).0) <==> !Alters(s, call, indexing)
  {
    if call.Mutate? {
      MutateAlters(s, call, indexing);
    } else if Typed(call.candidate) {
      AdmissionAlters(s, call, Admitted(call), indexing);
    }
  }

  predicate Unapplied(result: Result) {
    result.Thrown? || !result.applied
  }

  // A call that does not report success changes data after all exactly when it alters data and then loses its audit
  // record, or fails in the middle: all that a caller can rely on is that faults are needed for it.
  lemma UnappliedCallExactly(s: State, call: Call, indexing: bool)
    requires Invariant(s) && Unapplied(Step(s, call, indexing).1)
    ensures SameData(s, Step(s, call, indexing).0) <==> !Alters(s, call, indexing)
    ensures Alters(s, call, indexing) ==>
            call.faults.audit || call.faults.secondPut || (call.faults.rollback && indexing)
  {
    CallAltersExactly(s, call, indexing);
    if call.Mutate? && Alters(s, call, indexing) {
      var r := WithProject(s, call.request);
      UnappliedMutationFaults(Drawn(s, r), r, IdOf(s, r), MomentOf(r, call.at), indexing, call.faults);
      assert MutationAlters(Drawn(s, r), r, IdOf(s, r), MomentOf(r, call.at), indexing, call.faults);
    }
  }

  lemma UnappliedMutationFaults(s: State, r: Request, mutation: MutationId, now: Time, indexing: bool, faults: Faults)
    requires MutationAlters(s, r, mutation, now, indexing, faults)
    ensures Apply(s, r, mutation, now, indexing, faults).Broken? ==> faults.secondPut || (faults.rollback && indexing)
  {
    if r.action == Supersede {
      var previous, c := s.entries[r.target.value], r.replacement.value;
      var c' := Succeeding(c, previous);
      assert Storing(c, indexing, faults) == Storing(c', indexing, faults);
    }
  }

  // With reliable storage, a call that is denied, fails or throws changes no entry, tombstone or vector;
  // a denied call never does.
  lemma UnappliedCallLeavesData(s: State, call: Call, indexing: bool)
    requires Invariant(s) && Unapplied(Step(s, call, indexing).1)
    requires call.faults == RELIABLE || (call.Mutate? && !call.approved) || (call.Write? && !Admitted(call))
    ensures SameData(s, Step(s, call, indexing).0)
  {
    UnappliedCallExactly(s, call, indexing);
  }

  /******* Witnesses *******/

  const LOST := Faults(false, false, false, false, true, false)

  function CreateCall(content: string, faults: Faults): Call {
    Write(SampleCandidate(content), None, None, true, 0, faults)
  }

  // From the empty store: a write whose audit append fails throws, and leaves the entry and its vector.
  lemma LostRecordLeavesEntry() returns (call: Call)
    ensures var (s', result) := Step(EMPTY, call, true);
            call.Write? && result == Thrown && 1 in s'.entries && 1 in s'.index && s'.audit == map[]
  {
    call := CreateCall("fact", LOST);
  }

  function HalfwayCall(id: EntryId, content: string): Call {
    Mutate(Request(None, Supersede, None, Some(id), Some(SampleCandidate(content)), None), true, 0,
           SECOND_PUT_FAILS)
  }

  const SECOND_PUT_FAILS := Faults(false, false, true, false, false, false)

  // The replacement is stored and active, and the previous version still is.
  lemma SupersedeHalfway(s: State, r: Request, mutation: MutationId, now: Time)
    requires Invariant(s) && r.action == Supersede && Replaceable(s, r)
    requires Storing(r.replacement.value, false, SECOND_PUT_FAILS)
    ensures
      var a := Apply(s, r, mutation, now, false, SECOND_PUT_FAILS);
      && a.Broken? && r.target.value in a.state.entries && a.state.entries[r.target.value] == s.entries[r.target.value]
      && s.nextId in a.state.entries && a.state.entries[s.nextId].status == Active
  {
    var previous, c := s.entries[r.target.value], r.replacement.value;
    var c' := Succeeding(c, previous);
    var project := ProjectFor(r, previous);
    IdIsUnused(s);
    PersistData(s, c', project, mutation, now, false, SECOND_PUT_FAILS);
    PersistStores(s, c', project, mutation, now, false, SECOND_PUT_FAILS);
    PersistOnlyAdds(s, c', project, mutation, now, false, SECOND_PUT_FAILS);
    assert Apply(s, r, mutation, now, false, SECOND_PUT_FAILS)
        == Broken(Persist(s, c', project, mutation, now, false, SECOND_PUT_FAILS).state);
  }

  lemma HalfwayStep(s: State, id: EntryId, content: string)
    requires Invariant(s) && id in s.entries && s.entries[id].mutability == DomainVersioned
    requires s.entries[id].status == Active
    ensures
      var (s', result) := Step(s, HalfwayCall(id, content), false);
      && result.Returned? && !result.applied && id in s'.entries && s'.entries[id] == s.entries[id]
      && s.nextId + 1 in s'.entries && s'.entries[s.nextId + 1].status == Active
  {
    var call := HalfwayCall(id, content);
    var r := WithProject(s, call.request);
    NextIdKeepsInvariant(s);
    assert r.action == Supersede && r.target == Some(id) && r.id == None && r.replacement == call.request.replacement;
    SupersedeHalfway(Drawn(s, r), r, IdOf(s, r), 0);
    var a := Applying(s, call, false);
    assert a == Apply(Drawn(s, r), r, IdOf(s, r), 0, false, SECOND_PUT_FAILS);
    ConcludeKeepsData(a, IdOf(s, r), AuditRecord(0, r.action, Denied, r.project, r.target, None, None, 0),
                      SECOND_PUT_FAILS);
  }

  // A supersession whose second put fails reports failure, and leaves two active versions.
  lemma HalfSupersession() returns (create: Call, supersede: Call)
    ensures
      var s := Step(EMPTY, create, false).0;
      var (s', result) := Step(s, supersede, false);
      && result.Returned? && !result.applied
      && 1 in s'.entries && 3 in s'.entries && s'.entries[1].status == s'.entries[3].status == Active
  {
    create, supersede := CreateCall("old", RELIABLE), HalfwayCall(1, "new");
    var s := Step(EMPTY, create, false).0;
    CreateApplies("old");
    HalfwayStep(s, 1, "new");
  }

  // A caller that uses a mutation id twice replaces the record of the first use: two calls return, and the log holds
  // one.
  lemma ReusedIdReplacesRecord() returns (calls: seq<Call>)
    ensures Returns(EMPTY, calls, false) == 2 && |Run(EMPTY, calls, false).audit| == 1
  {
    var id := Supplied(0);
    var call := Mutate(Request(Some(id), SoftDelete, None, Some(7), None, None), true, 0, RELIABLE);
    calls := [call, call];
    var (s1, r1) := Step(EMPTY, call, false);
    var (s2, r2) := Step(s1, call, false);
    assert s1.audit.Keys == {id} && s2.audit.Keys == {id} && r1.Returned? && r2.Returned?;
    assert calls[1..] == [call] && [call][1..] == [];
    assert Run(s1, [call], false) == Run(s2, [], false) == s2;
    assert Returns(s1, [call], false) == 1 + Returns(s2, [], false) == 1;
    assert |s2.audit| == |s2.audit.Keys|;
  }

  function SoftDeleteCall(id: EntryId): Call {
    Mutate(Request(None, SoftDelete, None, Some(id), None, None), true, 0, RELIABLE)
  }

  lemma SoftDeleteApplies(s: State, id: EntryId)
    requires Invariant(s) && id in s.entries && s.entries[id].status == HardDeleted
    ensures
      var s' := Step(s, SoftDeleteCall(id), false).0;
      && id in s'.entries && s'.entries[id].status == SoftDeleted && s'.entries[id].tombstone.None?
      && s'.entries[id].content == s.entries[id].content
  {
    var call := SoftDeleteCall(id);
    var r := WithProject(s, call.request);
    assert r.action == SoftDelete && r.target == Some(id) && r.id == None;
    NextIdKeepsInvariant(s);
    SoftDeleteOverHardDelete(Drawn(s, r), r, IdOf(s, r), 0, false, RELIABLE);
    assert SameData(Applying(s, call, false).state, Step(s, call, false).0);
  }

  lemma CreateThenHardDelete(content: string)
    ensures
      var s := Step(Step(EMPTY, CreateCall(content, RELIABLE), false).0, DeleteCall(1), false).0;
      Invariant(s) && 1 in s.entries && s.entries[1].status == HardDeleted && s.entries[1].content == REDACTED
  {
    var s1 := Step(EMPTY, CreateCall(content, RELIABLE), false).0;
    CreateApplies(content);
    HardDeleteApplies(s1, 1);
    HardDeleteGoesThrough(s1, 1);
    HardDeleteBuriesWhatItFinds(s1, DeleteCall(1), false, content);
  }

  // Hard-deleted, then soft-deleted: the entry no longer names its tombstone.
  lemma SoftDeleteAfterHardDelete() returns (calls: seq<Call>)
    ensures
      var s := Run(EMPTY, calls, false);
      1 in s.entries && s.entries[1].status == SoftDeleted && s.entries[1].tombstone.None?
        && s.entries[1].content == REDACTED
  {
    calls := [CreateCall("secret", RELIABLE), DeleteCall(1), SoftDeleteCall(1)];
    RunOfThree(calls[0], calls[1], calls[2]);
    CreateThenHardDelete("secret");
    SoftDeleteApplies(Step(Step(EMPTY, calls[0], false).0, calls[1], false).0, 1);
  }

  /******* The audit log is complete *******/

  ghost predicate HasSequence(audit: Audit, k: int) {
    exists id :: id in audit && audit[id].sequence == k
  }

  // The sequence numbers are exactly 1..n, each used once.
  ghost predicate Numbered(audit: Audit) {
    && (forall k :: HasSequence(audit, k) <==> 1 <= k <= |audit|)
    && (forall a, b :: a in audit && b in audit && audit[a].sequence == audit[b].sequence ==> a == b)
  }

  // The log after a call that ended in this result: unchanged, or with one record under the id the call returned,
  // carrying the next number and an outcome that matches.
  ghost predicate Recorded(audit: Audit, audit': Audit, result: Result) {
    if result.Thrown? then audit' == audit
    else
      && result.mutation in audit' && audit' == audit[result.mutation := audit'[result.mutation]]
      && audit'[result.mutation].sequence == LastSequence(audit) + 1
      && (audit'[result.mutation].outcome == Applied <==> result.applied)
      && audit'[result.mutation].resulting == result.resulting
      && audit'[result.mutation].tombstone == result.tombstone
  }

  lemma AppendRecords(s: State, audit: Audit, id: MutationId, record: AuditRecord, applied: bool)
    requires s.audit == audit && (applied <==> record.outcome == Applied)
    ensures Recorded(audit, Append(s, id, record).audit, Returned(applied, id, record.resulting, record.tombstone))
  {
  }

  lemma CommitRecords(s: State, c: Candidate, project: Option<ProjectId>, mutation: MutationId, at: Time,
                      indexing: bool, faults: Faults)
    ensures
      var (s', result) := Commit(s, c, project, mutation, at, indexing, faults);
      Recorded(s.audit, s'.audit, result)
  {
    var p := Persist(s, c, project, mutation, at, indexing, faults);
    PersistKeepsAudit(s, c, project, mutation, at, indexing, faults);
    if p.Stored? {
      AppendRecords(p.state, s.audit, mutation,
                    AuditRecord(0, Create, Applied, ResolveProject(c, project), None, Some(p.id), None, at), true);
    }
  }

  lemma DenyRecords(s: State, mutation: MutationId, record: AuditRecord, lost: bool)
    requires record.outcome == Denied && record.resulting.None? && record.tombstone.None?
    ensures var (s', result) := Deny(s, mutation, record, lost); Recorded(s.audit, s'.audit, result)
  {
    AppendRecords(s, s.audit, mutation, record, false);
  }

  lemma AdmissionRecords(s: State, call: Call, admitted: bool, indexing: bool)
    requires call.Write?
    ensures var (s', result) := Admission(s, call, admitted, indexing); Recorded(s.audit, s'.audit, result)
  {
    var s1, mutation, c := s.(nextId := s.nextId + 1), Issued(s.nextId), call.candidate;
    assert s1.audit == s.audit;
    if admitted {
      CommitRecords(s1, c, call.project, mutation, call.at, indexing, call.faults);
    } else {
      var record := AuditRecord(0, Create, Denied, ResolveProject(c, call.project), None, None, None, call.at);
      assert Admission(s, call, admitted, indexing) == Deny(s1, mutation, record, call.faults.audit);
      DenyRecords(s1, mutation, record, call.faults.audit);
    }
  }

  lemma WriteRecords(s: State, call: Call, indexing: bool)
    requires call.Write?
    ensures Recorded(s.audit, WriteStep(s, call, indexing).0.audit, WriteStep(s, call, indexing).1)
  {
    if Typed(call.candidate) {
      AdmissionRecords(s, call, Admitted(call), indexing);
    }
  }

  lemma PersistKeepsAudit(s: State, c: Candidate, project: Option<ProjectId>, mutation: MutationId, now: Time,
                          indexing: bool, faults: Faults)
    ensures AuditKept(s, Persist(s, c, project, mutation, now, indexing, faults).state)
  {
  }

  lemma MutateRecords(s: State, call: Call, indexing: bool)
    requires call.Mutate?
    ensures Recorded(s.audit, MutateStep(s, call, indexing).0.audit, MutateStep(s, call, indexing).1)
  {
    var r := WithProject(s, call.request);
    ApplyKeepsAudit(Drawn(s, r), r, IdOf(s, r), MomentOf(r, call.at), indexing, call.faults);
    assert Applying(s, call, indexing).state.audit == s.audit;
  }

  // The record of a call that returned: what was asked for, of which target and project, when, and what became of it.
  ghost predicate RecordOf(record: AuditRecord, s: State, call: Call, result: Result)
    requires result.Returned?
  {
    && record.resulting == result.resulting && record.tombstone == result.tombstone
    && if call.Write? then
         var c := call.candidate;
         && record.action == Create && record.target.None? && record.occurredAt == call.at
         && record.project ==
              (if c.scope == Global then None else if call.project.Some? then call.project else c.project)
         && record.outcome == (if result.applied then Applied else Denied)
       else
         var r := call.request;
         && record.action == r.action && record.target == r.target
         && record.occurredAt == (if r.requestedAt.Some? then r.requestedAt.value else call.at)
         && record.project == (if r.project.None? && Found(s, r) then s.entries[r.target.value].project else r.project)
         && record.outcome == (if result.applied then Applied else if call.approved then Failed else Denied)
  }

  lemma AdmissionDescribes(s: State, call: Call, admitted: bool, indexing: bool)
    requires call.Write? && Admission(s, call, admitted, indexing).1.Returned?
    ensures var (s', result) := Admission(s, call, admitted, indexing);
            result.mutation in s'.audit && RecordOf(s'.audit[result.mutation], s, call, result)
  {
  }

  lemma RecordDescribes(s: State, call: Call, indexing: bool)
    requires Step(s, call, indexing).1.Returned?
    ensures var (s', result) := Step(s, call, indexing);
            result.mutation in s'.audit && RecordOf(s'.audit[result.mutation], s, call, result)
  {
  }

  // One call leaves one record if and only if it returns; it enlarges the log if and only if its id was new.
  lemma OneRecordPerCall(s: State, call: Call, indexing: bool)
    ensures var (s', result) := Step(s, call, indexing);
            && Recorded(s.audit, s'.audit, result)
            && (result.Returned? ==> RecordOf(s'.audit[result.mutation], s, call, result))
            && |s.audit| <= |s'.audit|
            && (|s'.audit| == |s.audit| + 1 <==> result.Returned? && result.mutation !in s.audit)
  {
    if call.Write? {
      WriteRecords(s, call, indexing);
    } else {
      MutateRecords(s, call, indexing);
    }
    var (s', result) := Step(s, call, indexing);
    if result.Returned? {
      RecordDescribes(s, call, indexing);
      GrowsByNewKey(s.audit, result.mutation, s'.audit[result.mutation]);
    }
  }

  ghost predicate AuditKept(s: State, s': State) {
    s'.audit == s.audit && s.nextId <= s'.nextId
  }

  lemma SupersedeKeepsAudit(s: State, r: Request, mutation: MutationId, now: Time, indexing: bool, faults: Faults)
    requires r.action == Supersede
    ensures AuditKept(s, Apply(s, r, mutation, now, indexing, faults).state)
  {
    if r.target.Some? && r.replacement.Some? && r.target.value in s.entries {
      var previous, c := s.entries[r.target.value], r.replacement.value;
      var c' := Succeeding(c, previous);
      PersistKeepsAudit(s, c', ProjectFor(r, previous), mutation, now, indexing, faults);
    }
  }

  lemma DeleteKeepsAudit(s: State, r: Request, mutation: MutationId, now: Time, indexing: bool, faults: Faults)
    requires r.action == SoftDelete || r.action == HardDelete
    ensures AuditKept(s, Apply(s, r, mutation, now, indexing, faults).state)
  {
  }

  lemma MoveKeepsAudit(s: State, r: Request, mutation: MutationId, now: Time, indexing: bool, faults: Faults)
    requires r.action == PromoteGlobal || r.action == DemoteProject || r.action == CompactStm || r.action == Create
    ensures AuditKept(s, Apply(s, r, mutation, now, indexing, faults).state)
  {
    if r.action == Create && r.replacement.Some? {
      PersistKeepsAudit(s, r.replacement.value, r.project, mutation, now, indexing, faults);
    }
  }

  lemma ApplyKeepsAudit(s: State, r: Request, mutation: MutationId, now: Time, indexing: bool, faults: Faults)
    ensures AuditKept(s, Apply(s, r, mutation, now, indexing, faults).state)
  {
    if r.action == Supersede {
      SupersedeKeepsAudit(s, r, mutation, now, indexing, faults);
    } else if r.action == SoftDelete || r.action == HardDelete {
      DeleteKeepsAudit(s, r, mutation, now, indexing, faults);
    } else {
      MoveKeepsAudit(s, r, mutation, now, indexing, faults);
    }
  }

  lemma GrowsByNewKey<K, V>(m: map<K, V>, k: K, v: V)
    ensures |m| <= |m[k := v]|
    ensures |m[k := v]| == |m| + 1 <==> k !in m
  {
    if k in m {
      assert m[k := v].Keys == m.Keys;
    } else {
      assert m[k := v].Keys == m.Keys + {k};
    }
    assert |m| == |m.Keys| && |m[k := v]| == |m[k := v].Keys|;
  }

  ghost function Returns(s: State, calls: seq<Call>, indexing: bool): nat
    decreases |calls|
  {
    if calls == [] then 0
    else
      var (s1, result) := Step(s, calls[0], indexing);
      (if result.Returned? then 1 else 0) + Returns(s1, calls[1..], indexing)
  }

  // Every returning call came with, or drew, an id the log did not hold yet.
  ghost predicate FreshRun(s: State, calls: seq<Call>, indexing: bool)
    decreases |calls|
  {
    calls == [] ||
    var (s1, result) := Step(s, calls[0], indexing);
    (result.Returned? ==> result.mutation !in s.audit) && FreshRun(s1, calls[1..], indexing)
  }

  lemma NumberedGrows(audit: Audit, id: MutationId, r: AuditRecord)
    requires Numbered(audit) && id !in audit && r.sequence == LastSequence(audit) + 1
    ensures Numbered(audit[id := r])
  {
    var audit' := audit[id := r];
    GrowsByNewKey(audit, id, r);
    LastIsCount(audit);
    forall k ensures HasSequence(audit', k) <==> 1 <= k <= |audit'| {
      assert HasSequence(audit, k) <==> 1 <= k <= |audit|;
      if HasSequence(audit, k) {
        var x :| x in audit && audit[x].sequence == k;
        assert x in audit' && audit'[x].sequence == k;
      }
      assert id in audit' && audit'[id].sequence == |audit| + 1;
    }
    forall a, b | a in audit' && b in audit' && audit'[a].sequence == audit'[b].sequence ensures a == b {
      assert a in audit ==> HasSequence(audit, audit[a].sequence);
      assert b in audit ==> HasSequence(audit, audit[b].sequence);
    }
  }

  lemma LastIsCount(audit: Audit)
    requires Numbered(audit)
    ensures LastSequence(audit) == |audit|
  {
    if audit != map[] {
      var x :| x in audit && audit[x].sequence == LastSequence(audit);
      assert HasSequence(audit, LastSequence(audit));
      assert |audit| == |audit.Keys| && audit.Keys != {};
      assert HasSequence(audit, |audit|);
    }
  }

  // The audit log of a run holds a record for every returning call, numbered 1..n without a gap, exactly when no
  // mutation id was used twice. Under every fault; a thrown call leaves no record.
  lemma {:induction false} AuditComplete(s: State, calls: seq<Call>, indexing: bool)
    requires Numbered(s.audit)
    ensures var audit := Run(s, calls, indexing).audit;
            && |audit| <= |s.audit| + Returns(s, calls, indexing)
            && (|audit| == |s.audit| + Returns(s, calls, indexing) <==> FreshRun(s, calls, indexing))
            && (FreshRun(s, calls, indexing) ==> Numbered(audit))
    decreases |calls|
  {
    if calls != [] {
      var (s1, result) := Step(s, calls[0], indexing);
      OneRecordPerCall(s, calls[0], indexing);
      if result.Returned? && result.mutation in s.audit {
        AuditBound(s1, calls[1..], indexing);
        assert |s1.audit| == |s.audit|;
      } else {
        if result.Returned? {
          NumberedGrows(s.audit, result.mutation, s1.audit[result.mutation]);
        }
        AuditComplete(s1, calls[1..], indexing);
      }
    }
  }

  lemma {:induction false} AuditBound(s: State, calls: seq<Call>, indexing: bool)
    ensures |Run(s, calls, indexing).audit| <= |s.audit| + Returns(s, calls, indexing)
    decreases |calls|
  {
    if calls != [] {
      OneRecordPerCall(s, calls[0], indexing);
      AuditBound(Step(s, calls[0], indexing).0, calls[1..], indexing);
    }
  }

  // No record carries an id the factory has still to issue.
  ghost predicate AuditIdsIssued(s: State) {
    forall n: nat :: Issued(n) in s.audit ==> n < s.nextId
  }

  // The caller leaves the choice of id to the factory, or brings one that the log does not hold and that the
  // factory will not issue later.
  predicate CallerIdFresh(s: State, call: Call) {
    call.Mutate? && call.request.id.Some? ==>
      var id := call.request.id.value;
      id !in s.audit && (id.Issued? ==> id.n < s.nextId)
  }

  ghost predicate CallerIdsFresh(s: State, calls: seq<Call>, indexing: bool)
    decreases |calls|
  {
    calls == [] || (CallerIdFresh(s, calls[0]) && CallerIdsFresh(Step(s, calls[0], indexing).0, calls[1..], indexing))
  }

  lemma IdsMoveOn(s: State, call: Call, indexing: bool)
    ensures var (s', result) := Step(s, call, indexing);
            && s.nextId <= s'.nextId
            && (result.Returned? ==> (result.mutation == Issued(s.nextId) && s.nextId < s'.nextId)
                                     || (call.Mutate? && call.request.id == Some(result.mutation)))
  {
    if call.Mutate? {
      var r := WithProject(s, call.request);
      ApplyKeepsAudit(Drawn(s, r), r, IdOf(s, r), MomentOf(r, call.at), indexing, call.faults);
      assert s.nextId <= Drawn(s, r).nextId <= Applying(s, call, indexing).state.nextId;
    }
  }

  lemma StepIssues(s: State, call: Call, indexing: bool)
    requires AuditIdsIssued(s) && CallerIdFresh(s, call)
    ensures var (s', result) := Step(s, call, indexing);
            AuditIdsIssued(s') && (result.Returned? ==> result.mutation !in s.audit)
  {
    OneRecordPerCall(s, call, indexing);
    IdsMoveOn(s, call, indexing);
  }

  // Fresh caller ids are enough for a complete log.
  lemma {:induction false} FreshIdsGiveFreshRun(s: State, calls: seq<Call>, indexing: bool)
    requires AuditIdsIssued(s) && CallerIdsFresh(s, calls, indexing)
    ensures FreshRun(s, calls, indexing)
    decreases |calls|
  {
    if calls != [] {
      StepIssues(s, calls[0], indexing);
      FreshIdsGiveFreshRun(Step(s, calls[0], indexing).0, calls[1..], indexing);
    }
  }

  // In a run without reused ids no record is replaced: at the end the log still describes every call that returned.
  lemma {:induction false} RecordsStay(s: State, calls: seq<Call>, indexing: bool, id: MutationId)
    requires FreshRun(s, calls, indexing) && id in s.audit
    ensures id in Run(s, calls, indexing).audit && Run(s, calls, indexing).audit[id] == s.audit[id]
    decreases |calls|
  {
    if calls != [] {
      OneRecordPerCall(s, calls[0], indexing);
      RecordsStay(Step(s, calls[0], indexing).0, calls[1..], indexing, id);
    }
  }

  lemma {:induction false} EveryCallIsDescribed(s: State, calls: seq<Call>, indexing: bool, k: nat)
    requires FreshRun(s, calls, indexing) && k < |calls|
    ensures var s1 := Run(s, calls[..k], indexing);
            var result := Step(s1, calls[k], indexing).1;
            result.Returned? ==>
              && result.mutation in Run(s, calls, indexing).audit
              && RecordOf(Run(s, calls, indexing).audit[result.mutation], s1, calls[k], result)
    decreases k
  {
    var s1 := Step(s, calls[0], indexing).0;
    if k == 0 {
      assert calls[..0] == [];
      OneRecordPerCall(s, calls[0], indexing);
      if Step(s, calls[0], indexing).1.Returned? {
        RecordsStay(s1, calls[1..], indexing, Step(s, calls[0], indexing).1.mutation);
      }
    } else {
      EveryCallIsDescribed(s1, calls[1..], indexing, k - 1);
      assert calls[..k][0] == calls[0] && calls[..k][1..] == calls[1..][..k - 1] && calls[1..][k - 1] == calls[k];
    }
  }

  /******* The vector index *******/

  ghost predicate Backed(s: State) {
    forall id :: id in s.index ==> id in s.entries
  }

  predicate StrandsVector(s: State, call: Call, indexing: bool) {
    if call.Write?
    then Typed(call.candidate) && Admitted(call) && LeavesVector(call.candidate, indexing, call.faults)
    else
      var r := call.request;
      call.approved && r.replacement.Some? && LeavesVector(r.replacement.value, indexing, call.faults)
        && (r.action == Create || (r.action == Supersede && Replaceable(s, r)))
  }

  lemma CommitIndex(s: State, c: Candidate, project: Option<ProjectId>, mutation: MutationId, at: Time, indexing: bool,
                    faults: Faults)
    requires IdsIssued(s) && Backed(s)
    ensures Backed(Commit(s, c, project, mutation, at, indexing, faults).0) <==> !LeavesVector(c, indexing, faults)
  {
    PersistIndex(s, c, project, mutation, at, indexing, faults);
    assert SameData(Persist(s, c, project, mutation, at, indexing, faults).state,
                    Commit(s, c, project, mutation, at, indexing, faults).0);
  }

  lemma AdmissionIndex(s: State, call: Call, admitted: bool, indexing: bool)
    requires IdsIssued(s) && Backed(s) && call.Write?
    ensures Backed(Admission(s, call, admitted, indexing).0) <==>
            !(admitted && LeavesVector(call.candidate, indexing, call.faults))
  {
    if admitted {
      CommitIndex(s.(nextId := s.nextId + 1), call.candidate, call.project, Issued(s.nextId), call.at, indexing,
                  call.faults);
    }
  }

  lemma WriteIndexExactly(s: State, call: Call, indexing: bool)
    requires IdsIssued(s) && Backed(s) && call.Write?
    ensures Backed(WriteStep(s, call, indexing).0) <==> !StrandsVector(s, call, indexing)
  {
    if Typed(call.candidate) {
      AdmissionIndex(s, call, Admitted(call), indexing);
    }
  }

  // Every vector belongs to a stored entry, and a call keeps it so exactly when it does not lose a store write and the
  // rollback of its vector as well.
  lemma IndexBackedExactly(s: State, call: Call, indexing: bool)
    requires IdsIssued(s) && Backed(s)
    ensures Backed(Step(s, call, indexing).0) <==> !StrandsVector(s, call, indexing)
  {
    if call.Write? {
      WriteIndexExactly(s, call, indexing);
    } else {
      var r := WithProject(s, call.request);
      ApplyIndex(Drawn(s, r), r, IdOf(s, r), MomentOf(r, call.at), indexing, call.faults);
      assert call.approved ==> (Backed(Step(s, call, indexing).0) <==> Backed(Applying(s, call, indexing).state));
    }
  }

  lemma PersistIndex(s: State, c: Candidate, project: Option<ProjectId>, mutation: MutationId, now: Time,
                     indexing: bool, faults: Faults)
    requires IdsIssued(s) && Backed(s)
    ensures Backed(Persist(s, c, project, mutation, now, indexing, faults).state) <==>
            !LeavesVector(c, indexing, faults)
  {
    var p := Persist(s, c, project, mutation, now, indexing, faults);
    PersistOnlyAdds(s, c, project, mutation, now, indexing, faults);
    PersistData(s, c, project, mutation, now, indexing, faults);
    if LeavesVector(c, indexing, faults) {
      assert s.nextId in p.state.index && s.nextId !in p.state.entries;
    }
  }

  lemma SupersedeIndex(s: State, r: Request, mutation: MutationId, now: Time, indexing: bool, faults: Faults)
    requires IdsIssued(s) && Backed(s) && r.action == Supersede && Replaceable(s, r)
    ensures Backed(Apply(s, r, mutation, now, indexing, faults).state) <==>
            !LeavesVector(r.replacement.value, indexing, faults)
  {
    var previous, c := s.entries[r.target.value], r.replacement.value;
    var c' := Succeeding(c, previous);
    var project := ProjectFor(r, previous);
    assert previous.id == r.target.value;
    assert LeavesVector(c, indexing, faults) == LeavesVector(c', indexing, faults);
    var p, a := Persist(s, c', project, mutation, now, indexing, faults), Apply(s, r, mutation, now, indexing, faults);
    if p.Refused? || faults.secondPut {
      assert a == Broken(p.state);
    } else {
      var closed := previous.(status := Superseded, supersededBy := Some(p.id), updatedAt := now,
                              lastMutation := Some(mutation));
      assert a.state == p.state.(entries := p.state.entries[previous.id := closed]);
    }
    assert previous.id in p.state.entries by { PersistOnlyAdds(s, c', project, mutation, now, indexing, faults); }
    PersistIndex(s, c', project, mutation, now, indexing, faults);
  }

  lemma OtherIndex(s: State, r: Request, mutation: MutationId, now: Time, indexing: bool, faults: Faults)
    requires IdsIssued(s) && Backed(s) && r.action != Create && !(r.action == Supersede && Replaceable(s, r))
    ensures Backed(Apply(s, r, mutation, now, indexing, faults).state)
  {
    var a := Apply(s, r, mutation, now, indexing, faults).state;
    assert r.target.Some? && r.target.value in s.entries ==> s.entries[r.target.value].id == r.target.value;
    assert a.index == s.index && a.entries.Keys == s.entries.Keys;
  }

  lemma ApplyIndex(s: State, r: Request, mutation: MutationId, now: Time, indexing: bool, faults: Faults)
    requires IdsIssued(s) && Backed(s)
    ensures Backed(Apply(s, r, mutation, now, indexing, faults).state) <==>
              !(r.replacement.Some? && LeavesVector(r.replacement.value, indexing, faults)
                && (r.action == Create || (r.action == Supersede && Replaceable(s, r))))
  {
    if r.action == Create {
      if r.replacement.Some? {
        PersistIndex(s, r.replacement.value, r.project, mutation, now, indexing, faults);
      }
    } else if r.action == Supersede && Replaceable(s, r) {
      SupersedeIndex(s, r, mutation, now, indexing, faults);
    } else {
      OtherIndex(s, r, mutation, now, indexing, faults);
    }
  }

  ghost predicate NeverStrands(s: State, calls: seq<Call>, indexing: bool)
    decreases |calls|
  {
    calls == [] || (!StrandsVector(s, calls[0], indexing)
                    && NeverStrands(Step(s, calls[0], indexing).0, calls[1..], indexing))
  }

  // Vectors stay, and new entries get new ids.
  ghost predicate KeepsIndex(s: State, s': State) {
    && s.nextId <= s'.nextId
    && (forall id :: id in s.index ==> id in s'.index)
    && (forall id :: id in s'.entries && id !in s.entries ==> s.nextId <= id)
  }

  // A vector once stranded stays so: no later entry gets its id.
  lemma UnbackedStays(s: State, s': State)
    requires IdsIssued(s) && KeepsIndex(s, s') && !Backed(s)
    ensures !Backed(s')
  {
    var id :| id in s.index && id !in s.entries;
    assert id in s'.index && id < s.nextId;
    assert id !in s'.entries;
  }

  // At the end of a run every vector belongs to a stored entry if and only if no call of the run stranded one. A
  // rejected write strands none when its rollback works.
  lemma {:induction false} IndexNeverDangles(s: State, calls: seq<Call>, indexing: bool)
    requires Invariant(s) && Backed(s)
    ensures Backed(Run(s, calls, indexing)) <==> NeverStrands(s, calls, indexing)
    decreases |calls|
  {
    if calls != [] {
      var s1 := Step(s, calls[0], indexing).0;
      IndexBackedExactly(s, calls[0], indexing);
      StepIsSound(s, calls[0], indexing);
      if Backed(s1) {
        IndexNeverDangles(s1, calls[1..], indexing);
      } else {
        RunIsSound(s1, calls[1..], indexing);
        UnbackedStays(s1, Run(s1, calls[1..], indexing));
      }
    }
  }

  /******* The runtime *******/

  class GovernedTypedLtmRuntime {
    var entries: Entries
    var tombstones: map<EntryId, Tombstone>
    var audit: Audit
    var index: map<EntryId, string>
    var nextId: nat
    const indexing: bool

    constructor (indexing: bool)
      ensures Now() == EMPTY && this.indexing == indexing
    {
      entries, tombstones, audit, index, nextId := map[], map[], map[], map[], 0;
      this.indexing := indexing;
    }

    ghost function Now(): State
      reads this
    {
      State(entries, tombstones, audit, index, nextId)
    }

    method DrawId() returns (id: nat)
      modifies this`nextId
      ensures id == old(nextId) && Now() == old(Now()).(nextId := id + 1)
    {
      id := nextId;
      nextId := nextId + 1;
    }

    // The listing is sorted by sequence number; the last one decides.
    method NextAuditSequence() returns (n: nat)
      ensures n == LastSequence(audit) + 1
    {
      var last := 0;
      var rest := audit.Keys;
      while rest != {}
        invariant rest <= audit.Keys
        invariant forall id :: id in audit.Keys - rest ==> audit[id].sequence <= last
        invariant last == 0 || exists id :: id in audit && audit[id].sequence == last
        decreases rest
      {
        var id :| id in rest;
        if audit[id].sequence > last {
          last := audit[id].sequence;
        }
        rest := rest - {id};
      }
      n := last + 1;
    }

    method AppendAuditRecord(id: MutationId, r: AuditRecord, fault: bool) returns (ok: bool)
      modifies this`audit
      ensures ok == !fault
      ensures Now() == if fault then old(Now()) else Append(old(Now()), id, r)
    {
      var sequence := NextAuditSequence();
      ok := !fault;
      if ok {
        audit := audit[id := r.(sequence := sequence)];
      }
    }

    method PersistCandidate(c: Candidate, project: Option<ProjectId>, mutation: MutationId, now: Time, faults: Faults)
      returns (stored: Option<EntryId>)
      modifies this
      ensures var p := Persist(old(Now()), c, project, mutation, now, indexing, faults);
              Now() == p.state && stored == if p.Stored? then Some(p.id) else None
    {
      if !Supported(c) {
        return None;
      }
      var id := DrawId();
      var entry := CandidateToEntry(c, ResolveProject(c, project), now, mutation, id);
      if indexing {
        if faults.embed {
          return None;
        }
        index := index[id := c.content];
      }
      if faults.firstPut || !Storable(entry) {
        if indexing && !faults.rollback {
          index := index - {id};
        }
        return None;
      }
      entries := entries[id := entry];
      stored := Some(id);
    }

    method SupersedeEntry(r: Request, mutation: MutationId, now: Time, faults: Faults)
      returns (replacement: Option<EntryId>)
      requires r.action == Supersede
      modifies this
      ensures var a := Apply(old(Now()), r, mutation, now, indexing, faults);
              Now() == a.state && replacement == if a.Done? then Some(a.resulting) else None
      ensures Apply(old(Now()), r, mutation, now, indexing, faults).Done? ==>
              Apply(old(Now()), r, mutation, now, indexing, faults).tombstone.None?
    {
      if r.target.None? || r.replacement.None? || r.target.value !in entries {
        return None;
      }
      var previous := entries[r.target.value];
      if previous.mutability != DomainVersioned || previous.status != Active {
        return None;
      }
      var c := r.replacement.value;
      var c' := Succeeding(c, previous);
      replacement := PersistCandidate(c', ProjectFor(r, previous), mutation, now, faults);
      if replacement.None? || faults.secondPut {
        return None;
      }
      entries := entries[previous.id :=
                         previous.(status := Superseded, supersededBy := replacement, updatedAt := now,
                                   lastMutation := Some(mutation))];
    }

    method HardDeleteEntry(r: Request, mutation: MutationId, now: Time, faults: Faults)
      returns (tombstone: Option<EntryId>)
      requires r.action == HardDelete
      modifies this
      ensures var a := Apply(old(Now()), r, mutation, now, indexing, faults);
              && Now() == a.state && tombstone == (if a.Done? then a.tombstone else None)
              && (a.Done? <==> tombstone.Some?)
              && (a.Done? ==>
                    && r.target.Some? && r.target.value in old(entries)
                    && a.resulting == old(entries)[r.target.value].id)
    {
      if r.target.None? || r.target.value !in entries {
        return None;
      }
      var e := entries[r.target.value];
      if Protected(e) {
        return None;
      }
      var t := DrawId();
      if faults.firstPut {
        return None;
      }
      tombstones := tombstones[t := Tombstone(e.id, Sha256(e.content), mutation, e.project, now)];
      if faults.secondPut {
        return None;
      }
      entries := entries[e.id := DeleteEntry(e, true, Some(t), mutation, now)];
      tombstone := Some(t);
    }

    method ApplyMutation(r: Request, mutation: MutationId, now: Time, faults: Faults)
      returns (resulting: Option<EntryId>, tombstone: Option<EntryId>)
      modifies this
      ensures var a := Apply(old(Now()), r, mutation, now, indexing, faults);
              && Now() == a.state
              && resulting == (if a.Done? then Some(a.resulting) else None)
              && tombstone == (if a.Done? then a.tombstone else None)
    {
      resulting, tombstone := None, None;
      match r.action
      case Create =>
        if r.replacement.Some? {
          resulting := PersistCandidate(r.replacement.value, r.project, mutation, now, faults);
        }
      case Supersede =>
        resulting := SupersedeEntry(r, mutation, now, faults);
      case HardDelete =>
        if r.target.Some? && r.target.value in entries {
          var e := entries[r.target.value];
          tombstone := HardDeleteEntry(r, mutation, now, faults);
          resulting := if tombstone.Some? then Some(e.id) else None;
        }
      case SoftDelete =>
        if r.target.Some? && r.target.value in entries && !faults.firstPut {
          var e := entries[r.target.value];
          entries := entries[e.id := DeleteEntry(e, false, None, mutation, now)];
          resulting := Some(e.id);
        }
      case PromoteGlobal =>
        if r.target.Some? && r.target.value in entries && !faults.firstPut {
          var e := entries[r.target.value];
          entries := entries[e.id := MoveEntry(e, true, r.project, mutation, now)];
          resulting := Some(e.id);
        }
      case DemoteProject =>
        if r.target.Some? && r.target.value in entries && !faults.firstPut {
          var e := entries[r.target.value];
          entries := entries[e.id := MoveEntry(e, false, r.project, mutation, now)];
          resulting := Some(e.id);
        }
      case CompactStm =>  // handled by the pipeline, not by this runtime
    }

    // Record a call that is turned down.
    method DenyCall(mutation: MutationId, record: AuditRecord, lost: bool) returns (result: Result)
      modifies this`audit
      ensures (Now(), result) == Deny(old(Now()), mutation, record, lost)
    {
      var logged := AppendAuditRecord(mutation, record, lost);
      result := if logged then Returned(false, mutation, None, None) else Thrown;
    }

    // Persist an admitted candidate and record that.
    method CommitCandidate(c: Candidate, project: Option<ProjectId>, mutation: MutationId, at: Time, faults: Faults)
      returns (result: Result)
      modifies this
      ensures (Now(), result) == Commit(old(Now()), c, project, mutation, at, indexing, faults)
    {
      var stored := PersistCandidate(c, project, mutation, at, faults);
      if stored.None? {
        return Thrown;
      }
      var record := AuditRecord(0, Create, Applied, ResolveProject(c, project), None, stored, None, at);
      var logged := AppendAuditRecord(mutation, record, faults.audit);
      result := if logged then Returned(true, mutation, stored, None) else Thrown;
    }

    // A new entry, once it is known whether it is admitted.
    method AdmitCandidate(c: Candidate, project: Option<ProjectId>, admitted: bool, at: Time, faults: Faults)
      returns (result: Result)
      modifies this
      ensures forall policy, approved ::
                (Now(), result) ==
                  Admission(old(Now()), Write(c, project, policy, approved, at, faults), admitted, indexing)
    {
      var id := DrawId();
      if admitted {
        result := CommitCandidate(c, project, Issued(id), at, faults);
      } else {
        var record := AuditRecord(0, Create, Denied, ResolveProject(c, project), None, None, None, at);
        result := DenyCall(Issued(id), record, faults.audit);
      }
    }

    method WriteEntry(c: Candidate, project: Option<ProjectId>, policy: Option<bool>, approved: bool, at: Time,
                      faults: Faults)
      returns (result: Result)
      modifies this
      ensures (Now(), result) == WriteStep(old(Now()), Write(c, project, policy, approved, at, faults), indexing)
    {
      if !Typed(c) {
        return Thrown;
      }
      result := AdmitCandidate(c, project, policy != Some(false) && approved, at, faults);
    }

    // The request with the project of its target, and its mutation id, drawn unless the caller brought one.
    method ResolveRequest(request: Request) returns (r: Request, mutation: MutationId)
      modifies this`nextId
      ensures r == WithProject(old(Now()), request) && mutation == IdOf(old(Now()), r) && Now() == Drawn(old(Now()), r)
    {
      r := request;
      if r.project.None? && r.target.Some? && r.target.value in entries {
        r := r.(project := entries[r.target.value].project);
      }
      if r.id.Some? {
        mutation := r.id.value;
      } else {
        var id := DrawId();
        mutation := Issued(id);
      }
    }

    method MutateEntry(request: Request, approved: bool, at: Time, faults: Faults) returns (result: Result)
      modifies this
      ensures (Now(), result) == MutateStep(old(Now()), Mutate(request, approved, at, faults), indexing)
    {
      var r, mutation := ResolveRequest(request);
      var now := MomentOf(r, at);
      var record := AuditRecord(0, r.action, Denied, r.project, r.target, None, None, now);
      if approved {
        result := ApplyAndRecord(r, mutation, now, record, faults);
      } else {
        result := DenyCall(mutation, record, faults.audit);
      }
    }

    // The approved part of a mutation: apply it and record that, or else record the failure.
    method ApplyAndRecord(r: Request, mutation: MutationId, now: Time, record: AuditRecord, faults: Faults)
      returns (result: Result)
      modifies this
      ensures (Now(), result) ==
              Conclude(Apply(old(Now()), r, mutation, now, indexing, faults), mutation, record, faults)
    {
      var resulting, tombstone := ApplyMutation(r, mutation, now, faults);
      if resulting.Some? {
        var applied := record.(outcome := Applied, resulting := resulting, tombstone := tombstone);
        var logged := AppendAuditRecord(mutation, applied, faults.audit);
        if logged {
          return Returned(true, mutation, resulting, tombstone);
        }
      }
      var logged := AppendAuditRecord(mutation, record.(outcome := Failed), faults.failedAudit);
      result := if logged then Returned(false, mutation, None, None) else Thrown;
    }
  }
}
