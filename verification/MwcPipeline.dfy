/**
 * The memory write pipeline in front of the governed runtime: submitting candidates of every kind, deleting a whole
 * project, and compacting short-term memory under the same audit log.
 *
 * Verdicts, clocks and storage faults are inputs of a call, as for the runtime.
 */
module MwcPipeline {
  import opened Memory
  import opened Sorting
  import opened LtmStore
  import L = GovernedLtm
  import S = StmStore

  /******* Submitting a candidate *******/

  // Facts and preferences go through the runtime; the other kinds are admitted here, without its write policy.
  ghost function SubmitStep(s: L.State, call: L.Call, indexing: bool): (L.State, L.Result)
    requires call.Write?
  {
    if !L.Supported(call.candidate) then (s, L.Thrown)
    else if L.Typed(call.candidate) then L.Step(s, call, indexing)
    else L.Admission(s, call, call.approved, indexing)
  }

  predicate Admitted(call: L.Call)
    requires call.Write?
  {
    && call.approved && (call.candidate.kind == ExperienceRecord ==> call.candidate.narrated)
    && (call.candidate.kind in {Fact, Preference} ==> call.policy != Some(false))
  }

  lemma SubmitIsAdmission(s: L.State, call: L.Call, indexing: bool)
    requires call.Write? && L.Supported(call.candidate)
    ensures SubmitStep(s, call, indexing) == L.Admission(s, call, Admitted(call), indexing)
  {
  }

  lemma SubmitIsSound(s: L.State, call: L.Call, indexing: bool)
    requires L.Invariant(s) && call.Write?
    ensures var s' := SubmitStep(s, call, indexing).0; L.Invariant(s') && L.Evolves(s, s')
  {
    if L.Supported(call.candidate) {
      SubmitIsAdmission(s, call, indexing);
      L.AdmissionIsSound(s, call, Admitted(call), indexing);
    } else {
      L.NextIdIsSound(s);
    }
  }

  predicate Accepted(call: L.Call, indexing: bool)
    requires call.Write?
  {
    Admitted(call) && L.Storing(call.candidate, indexing, call.faults) && !call.faults.audit
  }

  // A submission yields an entry, under a new id, exactly when it was admitted, the store took it and the audit record
  // was written. A distilled pattern, which names no sources here, is never taken.
  lemma SubmitAppliesExactly(s: L.State, call: L.Call, indexing: bool)
    requires L.Invariant(s) && call.Write?
    ensures
      var (s', result) := SubmitStep(s, call, indexing);
      && (result.Returned? && result.applied <==> Accepted(call, indexing))
      && (result.Returned? ==> (result.resulting.Some? <==> result.applied))
      && (Accepted(call, indexing) ==>
            result.resulting.value !in s.entries && s'.entries.Keys == s.entries.Keys + {result.resulting.value})
  {
    if L.Supported(call.candidate) {
      SubmitIsAdmission(s, call, indexing);
      var s1 := s.(nextId := s.nextId + 1);
      if Admitted(call) {
        L.NextIdKeepsInvariant(s);
        L.CommitApplies(s1, call.candidate, call.project, Issued(s.nextId), call.at, indexing, call.faults);
        assert SubmitStep(s, call, indexing) ==
               L.Commit(s1, call.candidate, call.project, Issued(s.nextId), call.at, indexing, call.faults);
      }
    }
  }

  // It throws if an experience record is not narrated, if its record is lost, or if it was admitted and its entry is
  // lost.
  lemma SubmitThrowsExactly(s: L.State, call: L.Call, indexing: bool)
    requires L.Invariant(s) && call.Write?
    ensures SubmitStep(s, call, indexing).1.Thrown? <==>
              || (call.candidate.kind == ExperienceRecord && !call.candidate.narrated) || call.faults.audit
              || (Admitted(call) && !L.Storing(call.candidate, indexing, call.faults))
  {
    hide L.Append;
    if L.Supported(call.candidate) {
      SubmitIsAdmission(s, call, indexing);
      var s1 := s.(nextId := s.nextId + 1);
      L.NextIdKeepsInvariant(s);
      L.CommitApplies(s1, call.candidate, call.project, Issued(s.nextId), call.at, indexing, call.faults);
    }
  }

  // What an accepted one leaves: the entry the candidate asks for, and its vector; everything else stays.
  lemma SubmitStoresCandidate(s: L.State, call: L.Call, indexing: bool)
    requires L.Invariant(s) && call.Write? && Accepted(call, indexing)
    ensures
      var (s', result) := SubmitStep(s, call, indexing);
      && result.Returned? && result.resulting.Some? && result.resulting.value in s'.entries
      && L.Carries(s'.entries[result.resulting.value], call.candidate, call.project, result.mutation, call.at)
      && (indexing ==> s'.index == s.index[result.resulting.value := call.candidate.content])
      && s'.tombstones == s.tombstones
      && (forall id :: id in s.entries ==> id in s'.entries && s'.entries[id] == s.entries[id])
  {
    SubmitIsAdmission(s, call, indexing);
    var s1 := s.(nextId := s.nextId + 1);
    L.NextIdKeepsInvariant(s);
    var c, mutation := call.candidate, Issued(s.nextId);
    L.CommitApplies(s1, c, call.project, mutation, call.at, indexing, call.faults);
    L.CommitStores(s1, c, call.project, mutation, call.at, indexing, call.faults);
    L.PersistOnlyAdds(s1, c, call.project, mutation, call.at, indexing, call.faults);
    L.PersistData(s1, c, call.project, mutation, call.at, indexing, call.faults);
    assert SubmitStep(s, call, indexing) == L.Commit(s1, c, call.project, mutation, call.at, indexing, call.faults);
  }

  // Whatever a submission reports, it leaves entries, tombstones and vectors as they were exactly when it was not
  // admitted, or neither its entry nor its vector stayed.
  lemma SubmitAltersExactly(s: L.State, call: L.Call, indexing: bool)
    requires L.Invariant(s) && call.Write?
    ensures L.SameData(s, SubmitStep(s, call, indexing).0) <==>
              !(Admitted(call) && L.Deposits(call.candidate, indexing, call.faults))
  {
    if L.Supported(call.candidate) {
      SubmitIsAdmission(s, call, indexing);
      L.AdmissionAlters(s, call, Admitted(call), indexing);
    }
  }

  // And a submission that returns is on record.
  lemma SubmitIsRecorded(s: L.State, call: L.Call, indexing: bool)
    requires call.Write?
    ensures
      var (s', result) := SubmitStep(s, call, indexing);
      && L.Recorded(s.audit, s'.audit, result)
      && (result.Returned? ==> L.RecordOf(s'.audit[result.mutation], s, call, result))
  {
    if L.Supported(call.candidate) {
      SubmitIsAdmission(s, call, indexing);
      L.AdmissionRecords(s, call, Admitted(call), indexing);
      if SubmitStep(s, call, indexing).1.Returned? {
        L.AdmissionDescribes(s, call, Admitted(call), indexing);
      }
    }
  }

  predicate Strands(call: L.Call, indexing: bool)
    requires call.Write?
  {
    Admitted(call) && L.LeavesVector(call.candidate, indexing, call.faults)
  }

  // The vector index stays backed exactly when no vector is stranded by a lost store write and a lost rollback.
  lemma SubmitIndexBackedExactly(s: L.State, call: L.Call, indexing: bool)
    requires L.IdsIssued(s) && L.Backed(s) && call.Write?
    ensures L.Backed(SubmitStep(s, call, indexing).0) <==> !Strands(call, indexing)
  {
    if L.Supported(call.candidate) {
      SubmitIsAdmission(s, call, indexing);
      L.AdmissionIndex(s, call, Admitted(call), indexing);
    }
  }

  /******* Deleting all entries of a project *******/

  // The verdict, the moment and the storage faults of one soft delete.
  datatype Turn = Turn(approved: bool, at: Time, faults: L.Faults)

  function ListFilter(project: ProjectId): QueryFilter {
    UNFILTERED.(project := Some(project), superseded := true, deleted := true)
  }

  // The listing the sweep works from: the project's entries of every status, oldest touch first.
  ghost predicate IsListing(m: Entries, project: ProjectId, listing: seq<Entry>) {
    && DistinctIds(listing) && Sorted(ByTouch, listing)
    && (forall e :: e in listing <==> e.id in m && m[e.id] == e && e.project == Some(project))
  }

  function DeleteCall(id: EntryId, project: ProjectId, turn: Turn): L.Call {
    L.Mutate(L.Request(None, L.SoftDelete, Some(project), Some(id), None, None), turn.approved, turn.at, turn.faults)
  }

  datatype Sweep = Sweep(state: L.State, count: nat, completed: bool)

  // Soft-delete the listed entries that were active when listed; a call that throws ends the sweep.
  ghost function SweepOver(s: L.State, listing: seq<Entry>, project: ProjectId, turns: seq<Turn>, indexing: bool): Sweep
    requires |listing| <= |turns|
  {
    if listing == [] then Sweep(s, 0, true)
    else
      var n := |listing| - 1;
      var before := SweepOver(s, listing[..n], project, turns, indexing);
      if !before.completed || listing[n].status != Active then before
      else
        var (s', result) := L.Step(before.state, DeleteCall(listing[n].id, project, turns[n]), indexing);
        if result.Thrown? then Sweep(s', before.count, false)
        else Sweep(s', before.count + (if result.applied then 1 else 0), true)
  }

  predicate Deletes(turn: Turn) {
    turn.approved && !turn.faults.firstPut
  }

  // The call throws: the last audit record it tries to leave is lost.
  predicate Throws(turn: Turn) {
    if turn.approved then (turn.faults.firstPut || turn.faults.audit) && turn.faults.failedAudit else turn.faults.audit
  }

  // One soft delete: what it changes, when it applies, when it throws.
  lemma SoftDeleteExactly(s: L.State, id: EntryId, project: ProjectId, turn: Turn, indexing: bool)
    requires L.Invariant(s) && id in s.entries
    ensures
      var (s', result) := L.Step(s, DeleteCall(id, project, turn), indexing);
      && s'.tombstones == s.tombstones && s'.index == s.index
      && s'.entries ==
         (if Deletes(turn) then s.entries[id := L.DeleteEntry(s.entries[id], false, None, Issued(s.nextId), turn.at)]
          else s.entries)
      && (result.Thrown? <==> Throws(turn))
      && (result.Returned? ==> (result.applied <==> Deletes(turn) && !turn.faults.audit))
  {
    assert L.WellLinked(s.entries[id], id, s);
    var call := DeleteCall(id, project, turn);
    assert L.WithProject(s, call.request) == call.request;
    if turn.approved {
      var a := L.Applying(s, call, indexing);
      assert a.Done? <==> !turn.faults.firstPut;
    }
  }

  // Whether the store soft-deletes the k-th listed entry if the sweep gets that far.
  predicate Hit(listing: seq<Entry>, turns: seq<Turn>, k: nat)
    requires k < |listing| <= |turns|
  {
    listing[k].status == Active && Deletes(turns[k])
  }

  // Whether the sweep ends with the k-th listed entry, if it gets that far.
  predicate Stops(listing: seq<Entry>, turns: seq<Turn>, k: nat)
    requires k < |listing| <= |turns|
  {
    listing[k].status == Active && Throws(turns[k])
  }

  predicate Reached(listing: seq<Entry>, turns: seq<Turn>, k: nat)
    requires k <= |listing| <= |turns|
  {
    forall j: nat :: j < k ==> !Stops(listing, turns, j)
  }

  // Whether the sweep deletes the k-th listed entry. The one it stops at may be deleted, too.
  predicate Deleted(listing: seq<Entry>, turns: seq<Turn>, k: nat)
    requires k < |listing| <= |turns|
  {
    Reached(listing, turns, k) && Hit(listing, turns, k)
  }

  ghost predicate DeletedId(listing: seq<Entry>, turns: seq<Turn>, id: EntryId)
    requires |listing| <= |turns|
  {
    exists k: nat :: k < |listing| && listing[k].id == id && Deleted(listing, turns, k)
  }

  // An entry after a soft delete at this moment by some mutation.
  ghost predicate SoftDeletedFrom(e: Entry, e': Entry, at: Time) {
    && e'.status == SoftDeleted && e'.content == e.content && e'.lastMutation.Some?
    && e' == e.(status := SoftDeleted, deletedAt := Some(at), tombstone := None, updatedAt := at,
                lastMutation := e'.lastMutation)
  }

  // What a sweep never changes: which entries there are, tombstones, vectors, and the entries it does not list.
  ghost predicate Frame(s: L.State, listing: seq<Entry>, s': L.State) {
    && s'.entries.Keys == s.entries.Keys && s'.tombstones == s.tombstones && s'.index == s.index
    && (forall id :: id in s.entries && Unlisted(listing, id) ==> s'.entries[id] == s.entries[id])
  }

  predicate Unlisted(listing: seq<Entry>, id: EntryId) {
    forall k :: 0 <= k < |listing| ==> listing[k].id != id
  }

  // What became of the k-th listed entry.
  ghost predicate Treated(listing: seq<Entry>, turns: seq<Turn>, m: Entries, k: nat)
    requires k < |listing| <= |turns|
  {
    && listing[k].id in m
    && if Deleted(listing, turns, k) then SoftDeletedFrom(listing[k], m[listing[k].id], turns[k].at)
       else m[listing[k].id] == listing[k]
  }

  // The state after a sweep over part of the listing, and how many calls reported success.
  ghost predicate Swept(s: L.State, listing: seq<Entry>, turns: seq<Turn>, sweep: Sweep)
    requires |listing| <= |turns|
  {
    && L.Invariant(sweep.state) && Frame(s, listing, sweep.state)
    && (sweep.completed <==> Reached(listing, turns, |listing|))
    && sweep.count == Reported(listing, turns)
    && (forall k: nat :: k < |listing| ==> Treated(listing, turns, sweep.state.entries, k))
  }

  function Reported(listing: seq<Entry>, turns: seq<Turn>): nat
    requires |listing| <= |turns|
  {
    if listing == [] then 0
    else
      var n := |listing| - 1;
      Reported(listing[..n], turns) + (if Deleted(listing, turns, n) && !turns[n].faults.audit then 1 else 0)
  }

  // What one turn makes of the entries.
  function Turned(m: Entries, listing: seq<Entry>, turns: seq<Turn>, mutation: MutationId): Entries
    requires listing != [] && |listing| <= |turns| && listing[|listing| - 1].id in m
  {
    var id := listing[|listing| - 1].id;
    if Hit(listing, turns, |listing| - 1) then
      m[id := L.DeleteEntry(m[id], false, None, mutation, turns[|listing| - 1].at)]
    else m
  }

  lemma FrameGrows(s: L.State, listing: seq<Entry>, turns: seq<Turn>, b: L.State, a: L.State, mutation: MutationId)
    requires listing != [] && |listing| <= |turns| && listing[|listing| - 1].id in b.entries
    requires Frame(s, listing[..|listing| - 1], b)
    requires a.tombstones == b.tombstones && a.index == b.index
    requires a.entries == Turned(b.entries, listing, turns, mutation)
    ensures Frame(s, listing, a)
  {
    var init := listing[..|listing| - 1];
    assert forall k :: 0 <= k < |init| ==> init[k] == listing[k];
    forall id | id in s.entries && Unlisted(listing, id) ensures a.entries[id] == s.entries[id] {
      assert Unlisted(init, id);
    }
  }

  // How far the sweep gets does not depend on what is listed later.
  lemma ReachedEarlier(listing: seq<Entry>, turns: seq<Turn>, k: nat)
    requires listing != [] && |listing| <= |turns| && k < |listing|
    ensures Reached(listing[..|listing| - 1], turns, k) <==> Reached(listing, turns, k)
    ensures k < |listing| - 1 ==> (Deleted(listing[..|listing| - 1], turns, k) <==> Deleted(listing, turns, k))
  {
    var init := listing[..|listing| - 1];
    assert forall j: nat :: j < k ==> (Stops(init, turns, j) <==> Stops(listing, turns, j));
  }

  lemma TreatedGrows(listing: seq<Entry>, turns: seq<Turn>, m: Entries, mutation: MutationId, k: nat)
    requires listing != [] && |listing| <= |turns| && k < |listing| && DistinctIds(listing)
    requires Reached(listing, turns, |listing| - 1)
    requires listing[|listing| - 1].id in m && m[listing[|listing| - 1].id] == listing[|listing| - 1]
    requires k < |listing| - 1 ==> Treated(listing[..|listing| - 1], turns, m, k)
    ensures Treated(listing, turns, Turned(m, listing, turns, mutation), k)
  {
    if k < |listing| - 1 {
      ReachedEarlier(listing, turns, k);
      assert listing[..|listing| - 1][k] == listing[k];
    }
  }

  // One more listed entry, where after is what its turn made of before.
  lemma SweepOneMore(s: L.State, listing: seq<Entry>, turns: seq<Turn>, before: Sweep, after: Sweep,
                     mutation: MutationId)
    requires listing != [] && |listing| <= |turns| && DistinctIds(listing) && Listed(s, listing)
    requires Swept(s, listing[..|listing| - 1], turns, before) && before.completed && L.Invariant(after.state)
    requires
      && listing[|listing| - 1].id in before.state.entries
      && after.state.tombstones == before.state.tombstones && after.state.index == before.state.index
      && after.state.entries == Turned(before.state.entries, listing, turns, mutation)
      && (after.completed <==> !Stops(listing, turns, |listing| - 1))
      && after.count == before.count
           + (if Hit(listing, turns, |listing| - 1) && !turns[|listing| - 1].faults.audit then 1 else 0)
    ensures Swept(s, listing, turns, after)
  {
    var n := |listing| - 1;
    var init, e := listing[..n], listing[n];
    FrameGrows(s, listing, turns, before.state, after.state, mutation);
    ReachedEarlier(listing, turns, n);
    assert Reached(listing, turns, n);
    assert Reached(listing, turns, |listing|) <==> !Stops(listing, turns, n);
    assert before.state.entries[e.id] == e by {
      assert Unlisted(init, e.id);
    }
    forall k: nat | k < |listing| ensures Treated(listing, turns, after.state.entries, k) {
      assert k < n ==> Treated(init, turns, before.state.entries, k);
      TreatedGrows(listing, turns, before.state.entries, mutation, k);
    }
  }

  predicate Listed(s: L.State, listing: seq<Entry>) {
    forall k :: 0 <= k < |listing| ==> listing[k].id in s.entries && s.entries[listing[k].id] == listing[k]
  }

  // A longer listing frames less.
  lemma FrameOfMore(s: L.State, listing: seq<Entry>, s': L.State)
    requires listing != [] && Frame(s, listing[..|listing| - 1], s')
    ensures Frame(s, listing, s')
  {
    var init := listing[..|listing| - 1];
    assert forall k :: 0 <= k < |init| ==> init[k] == listing[k];
    forall id | id in s.entries && Unlisted(listing, id) ensures s'.entries[id] == s.entries[id] {
      assert Unlisted(init, id);
    }
  }

  lemma StoppedReports(listing: seq<Entry>, turns: seq<Turn>)
    requires listing != [] && |listing| <= |turns|
    requires !Reached(listing[..|listing| - 1], turns, |listing| - 1)
    ensures !Reached(listing, turns, |listing| - 1) && !Reached(listing, turns, |listing|)
    ensures Reported(listing, turns) == Reported(listing[..|listing| - 1], turns)
  {
    ReachedEarlier(listing, turns, |listing| - 1);
    assert !Deleted(listing, turns, |listing| - 1);
  }

  lemma StoppedStaysSwept(s: L.State, listing: seq<Entry>, turns: seq<Turn>, sweep: Sweep)
    requires listing != [] && |listing| <= |turns| && DistinctIds(listing) && Listed(s, listing)
    requires Swept(s, listing[..|listing| - 1], turns, sweep) && !sweep.completed
    ensures Swept(s, listing, turns, sweep)
  {
    FrameOfMore(s, listing, sweep.state);
    StoppedReports(listing, turns);
    forall k: nat | k < |listing| ensures Treated(listing, turns, sweep.state.entries, k) {
      StoppedStaysTreated(s, listing, turns, sweep, k);
    }
  }

  lemma StoppedStaysTreated(s: L.State, listing: seq<Entry>, turns: seq<Turn>, sweep: Sweep, k: nat)
    requires listing != [] && |listing| <= |turns| && DistinctIds(listing) && Listed(s, listing) && k < |listing|
    requires Swept(s, listing[..|listing| - 1], turns, sweep) && !Reached(listing, turns, |listing| - 1)
    ensures Treated(listing, turns, sweep.state.entries, k)
  {
    var init := listing[..|listing| - 1];
    if k < |init| {
      assert init[k] == listing[k] && Treated(init, turns, sweep.state.entries, k);
      ReachedEarlier(listing, turns, k);
    } else {
      assert Unlisted(init, listing[k].id);
      assert !Deleted(listing, turns, k);
    }
  }

  lemma SweepStep(s: L.State, listing: seq<Entry>, project: ProjectId, turns: seq<Turn>, indexing: bool)
    requires listing != [] && |listing| <= |turns| && DistinctIds(listing) && Listed(s, listing)
    requires Swept(s, listing[..|listing| - 1], turns, SweepOver(s, listing[..|listing| - 1], project, turns, indexing))
    ensures Swept(s, listing, turns, SweepOver(s, listing, project, turns, indexing))
  {
    var n := |listing| - 1;
    var before, after := SweepOver(s, listing[..n], project, turns, indexing),
      SweepOver(s, listing, project, turns, indexing);
    var b := before.state;
    if !before.completed {
      StoppedStaysSwept(s, listing, turns, before);
    } else {
      if listing[n].status == Active {
        SoftDeleteExactly(b, listing[n].id, project, turns[n], indexing);
        L.StepIsSound(b, DeleteCall(listing[n].id, project, turns[n]), indexing);
      }
      SweepOneMore(s, listing, turns, before, after, Issued(b.nextId));
    }
  }

  lemma {:induction false} SweepOverListing(s: L.State, listing: seq<Entry>, project: ProjectId, turns: seq<Turn>,
                                            indexing: bool)
    requires L.Invariant(s) && |listing| <= |turns| && DistinctIds(listing) && Listed(s, listing)
    ensures Swept(s, listing, turns, SweepOver(s, listing, project, turns, indexing))
  {
    if listing == [] {
    } else {
      SweepOverListing(s, listing[..|listing| - 1], project, turns, indexing);
      SweepStep(s, listing, project, turns, indexing);
    }
  }

  // Whatever the verdicts and faults, whether a sweep completes or not: it leaves every entry of another project, every
  // tombstone and every vector alone; an entry of the project ends up soft-deleted, content kept, exactly when the
  // sweep got to it, it was active, its delete was approved and the store took it, and is unchanged otherwise; the
  // sweep completes exactly when no delete of an active entry throws, and counts the ones that reported success.
  lemma DeleteAllExactly(s: L.State, listing: seq<Entry>, project: ProjectId, turns: seq<Turn>, indexing: bool)
    requires L.Invariant(s) && IsListing(s.entries, project, listing) && |listing| <= |turns|
    ensures
      var sweep := SweepOver(s, listing, project, turns, indexing);
      && sweep.state.entries.Keys == s.entries.Keys
      && sweep.state.tombstones == s.tombstones && sweep.state.index == s.index
      && (forall id :: id in s.entries && s.entries[id].project != Some(project) ==>
          sweep.state.entries[id] == s.entries[id])
      && (forall id :: id in s.entries && s.entries[id].project == Some(project) ==>
            var e' := sweep.state.entries[id];
            if DeletedId(listing, turns, id) then SoftDeletedFrom(s.entries[id], e', e'.updatedAt)
            else e' == s.entries[id])
      && (sweep.completed <==> forall k: nat :: k < |listing| ==> !Stops(listing, turns, k))
      && sweep.count == Reported(listing, turns)
  {
    assert forall k :: 0 <= k < |listing| ==> listing[k] in listing;
    SweepOverListing(s, listing, project, turns, indexing);
    var sweep := SweepOver(s, listing, project, turns, indexing);
    forall id | id in s.entries && s.entries[id].project != Some(project)
      ensures sweep.state.entries[id] == s.entries[id]
    {
      assert Unlisted(listing, id);
    }
    forall id | id in s.entries && s.entries[id].project == Some(project)
      ensures if DeletedId(listing, turns, id)
              then SoftDeletedFrom(s.entries[id], sweep.state.entries[id], sweep.state.entries[id].updatedAt)
              else sweep.state.entries[id] == s.entries[id]
    {
      var k := PositionOf(s, listing, project, id);
      assert Treated(listing, turns, sweep.state.entries, k);
      assert DeletedId(listing, turns, id) <==> Deleted(listing, turns, k);
    }
  }

  // When it was deleted: at the moment of its turn.
  lemma DeletedAt(s: L.State, listing: seq<Entry>, project: ProjectId, turns: seq<Turn>, indexing: bool, k: nat)
    requires L.Invariant(s) && IsListing(s.entries, project, listing) && k < |listing| <= |turns|
    requires Deleted(listing, turns, k)
    ensures var m := SweepOver(s, listing, project, turns, indexing).state.entries;
            listing[k].id in m && SoftDeletedFrom(listing[k], m[listing[k].id], turns[k].at)
  {
    assert forall j :: 0 <= j < |listing| ==> listing[j] in listing;
    SweepOverListing(s, listing, project, turns, indexing);
    assert Treated(listing, turns, SweepOver(s, listing, project, turns, indexing).state.entries, k);
  }

  lemma TurnIsRecorded(s: L.State, id: EntryId, project: ProjectId, turn: Turn, indexing: bool)
    ensures var s' := L.Step(s, DeleteCall(id, project, turn), indexing).0;
            forall x :: x in s'.audit && x !in s.audit ==>
              && s'.audit[x].action == L.SoftDelete && s'.audit[x].project == Some(project)
              && s'.audit[x].target.Some?
    ensures var s' := L.Step(s, DeleteCall(id, project, turn), indexing).0;
            forall x :: x in s.audit && x in s'.audit ==>
              s'.audit[x] == s.audit[x] || (s'.audit[x].action == L.SoftDelete && s'.audit[x].target.Some?
                                            && s'.audit[x].project == Some(project))
  {
    L.OneRecordPerCall(s, DeleteCall(id, project, turn), indexing);
    hide L.Step;
  }

  // What a sweep records: soft deletes in that project, each of a target.
  lemma {:induction false} SweepIsRecorded(s: L.State, listing: seq<Entry>, project: ProjectId, turns: seq<Turn>,
                                           indexing: bool)
    requires |listing| <= |turns|
    ensures var s' := SweepOver(s, listing, project, turns, indexing).state;
            forall id :: id in s'.audit && id !in s.audit ==>
              && s'.audit[id].action == L.SoftDelete && s'.audit[id].project == Some(project)
              && s'.audit[id].target.Some?
  {
    hide L.Step;
    if listing != [] {
      var n := |listing| - 1;
      var before := SweepOver(s, listing[..n], project, turns, indexing);
      SweepIsRecorded(s, listing[..n], project, turns, indexing);
      if before.completed && listing[n].status == Active {
        TurnIsRecorded(before.state, listing[n].id, project, turns[n], indexing);
      }
    }
  }

  lemma PositionOf(s: L.State, listing: seq<Entry>, project: ProjectId, id: EntryId) returns (k: nat)
    requires L.Invariant(s) && IsListing(s.entries, project, listing) && id in s.entries
    requires s.entries[id].project == Some(project)
    ensures k < |listing| && listing[k] == s.entries[id] && listing[k].id == id
    ensures forall j: nat :: j < |listing| && listing[j].id == id ==> j == k
  {
    assert L.WellLinked(s.entries[id], id, s);
    assert s.entries[id] in listing;
    k :| k < |listing| && listing[k] == s.entries[id];
  }

  ghost predicate AllSmooth(turns: seq<Turn>) {
    forall k :: 0 <= k < |turns| ==> turns[k].approved && turns[k].faults == L.RELIABLE
  }

  ghost function ActiveIds(m: Entries, project: ProjectId): set<EntryId> {
    set id | id in m && m[id].project == Some(project) && m[id].status == Active
  }

  function ActiveIn(listing: seq<Entry>): set<EntryId> {
    if listing == [] then {}
    else
      ActiveIn(listing[..|listing| - 1])
      + (if listing[|listing| - 1].status == Active then {listing[|listing| - 1].id} else {})
  }

  lemma {:induction false} ActiveInContents(listing: seq<Entry>)
    ensures forall id :: id in ActiveIn(listing) <==>
            exists k :: 0 <= k < |listing| && listing[k].id == id && listing[k].status == Active
  {
    if listing == [] {
    } else {
      var n := |listing| - 1;
      ActiveInContents(listing[..n]);
      forall id
        ensures id in ActiveIn(listing) <==>
                exists k :: 0 <= k < |listing| && listing[k].id == id && listing[k].status == Active
      {
        if id in ActiveIn(listing[..n]) {
          var k :| 0 <= k < n && listing[..n][k].id == id && listing[..n][k].status == Active;
          assert listing[k].id == id;
        }
        if k :| 0 <= k < |listing| && listing[k].id == id && listing[k].status == Active {
          assert k < n ==> listing[..n][k] == listing[k];
        }
      }
    }
  }

  // One smooth delete applies and leaves one new record.
  lemma SmoothDelete(s: L.State, id: EntryId, project: ProjectId, turn: Turn, indexing: bool)
    requires L.Invariant(s) && L.AuditIdsIssued(s) && id in s.entries && turn.approved && turn.faults == L.RELIABLE
    ensures
      var (s', result) := L.Step(s, DeleteCall(id, project, turn), indexing);
      && result.Returned? && result.applied && L.AuditIdsIssued(s') && |s'.audit| == |s.audit| + 1
      && (L.Numbered(s.audit) ==> L.Numbered(s'.audit))
  {
    var call := DeleteCall(id, project, turn);
    SoftDeleteExactly(s, id, project, turn, indexing);
    L.StepIssues(s, call, indexing);
    L.OneRecordPerCall(s, call, indexing);
    var (s', result) := L.Step(s, call, indexing);
    if L.Numbered(s.audit) {
      L.NumberedGrows(s.audit, result.mutation, s'.audit[result.mutation]);
    }
  }

  // A sweep is smooth if it completes, counts the active entries, and writes one audit record for each.
  ghost predicate Smooth(s: L.State, listing: seq<Entry>, sweep: Sweep) {
    && sweep.completed && L.AuditIdsIssued(sweep.state)
    && sweep.count == |ActiveIn(listing)| && |sweep.state.audit| == |s.audit| + sweep.count
    && (L.Numbered(s.audit) ==> L.Numbered(sweep.state.audit))
  }

  lemma OneMoreActive(listing: seq<Entry>)
    requires listing != [] && DistinctIds(listing)
    ensures |ActiveIn(listing)| == |ActiveIn(listing[..|listing| - 1])|
            + (if listing[|listing| - 1].status == Active then 1 else 0)
  {
    var init := listing[..|listing| - 1];
    ActiveInContents(init);
    if listing[|listing| - 1].status == Active {
      assert listing[|listing| - 1].id !in ActiveIn(init);
    } else {
      assert ActiveIn(listing) == ActiveIn(init);
    }
  }

  lemma SmoothSweepStep(s: L.State, listing: seq<Entry>, project: ProjectId, turns: seq<Turn>, indexing: bool)
    requires L.Invariant(s) && listing != [] && |listing| <= |turns| && DistinctIds(listing) && AllSmooth(turns)
    requires Listed(s, listing)
    requires Smooth(s, listing[..|listing| - 1], SweepOver(s, listing[..|listing| - 1], project, turns, indexing))
    ensures Smooth(s, listing, SweepOver(s, listing, project, turns, indexing))
  {
    var init, e, turn := listing[..|listing| - 1], listing[|listing| - 1], turns[|listing| - 1];
    var before, after := SweepOver(s, init, project, turns, indexing), SweepOver(s, listing, project, turns, indexing);
    OneMoreActive(listing);
    if e.status == Active {
      assert L.Invariant(before.state) && e.id in before.state.entries by {
        SweepOverListing(s, init, project, turns, indexing);
      }
      SmoothDelete(before.state, e.id, project, turn, indexing);
      var (s', result) := L.Step(before.state, DeleteCall(e.id, project, turn), indexing);
      assert after == Sweep(s', before.count + 1, true);
    } else {
      assert after == before;
    }
  }

  lemma {:induction false} SmoothSweep(s: L.State, listing: seq<Entry>, project: ProjectId, turns: seq<Turn>,
                                       indexing: bool)
    requires L.Invariant(s) && L.AuditIdsIssued(s) && |listing| <= |turns| && DistinctIds(listing) && AllSmooth(turns)
    requires Listed(s, listing)
    ensures Smooth(s, listing, SweepOver(s, listing, project, turns, indexing))
  {
    if listing == [] {
    } else {
      SmoothSweep(s, listing[..|listing| - 1], project, turns, indexing);
      SmoothSweepStep(s, listing, project, turns, indexing);
    }
  }

  // With every delete approved and storage reliable, deleting a project completes, leaves none of its entries active,
  // returns the number that were, and leaves as many new audit records in a log without gaps.
  lemma DeleteAllClearsProject(s: L.State, listing: seq<Entry>, project: ProjectId, turns: seq<Turn>, indexing: bool)
    requires L.Invariant(s) && L.AuditIdsIssued(s) && IsListing(s.entries, project, listing) && |listing| <= |turns|
    requires AllSmooth(turns)
    ensures
      var sweep := SweepOver(s, listing, project, turns, indexing);
      && sweep.completed
      && ActiveIds(sweep.state.entries, project) == {}
      && sweep.count == |ActiveIds(s.entries, project)|
      && |sweep.state.audit| == |s.audit| + sweep.count
      && (L.Numbered(s.audit) ==> L.Numbered(sweep.state.audit))
  {
    assert forall k :: 0 <= k < |listing| ==> listing[k] in listing;
    SmoothSweep(s, listing, project, turns, indexing);
    ActiveInIsActive(s, listing, project);
    SweptNoneActive(s, listing, project, turns, indexing);
  }

  lemma ActiveInIsActive(s: L.State, listing: seq<Entry>, project: ProjectId)
    requires L.Invariant(s) && IsListing(s.entries, project, listing)
    ensures ActiveIn(listing) == ActiveIds(s.entries, project)
  {
    ActiveInContents(listing);
    forall id ensures id in ActiveIn(listing) <==> id in ActiveIds(s.entries, project) {
      if id in ActiveIn(listing) {
        var k :| 0 <= k < |listing| && listing[k].id == id && listing[k].status == Active;
        assert listing[k] in listing;
      }
      if id in ActiveIds(s.entries, project) {
        var k := PositionOf(s, listing, project, id);
      }
    }
  }

  lemma SweptNoneActive(s: L.State, listing: seq<Entry>, project: ProjectId, turns: seq<Turn>, indexing: bool)
    requires L.Invariant(s) && IsListing(s.entries, project, listing) && |listing| <= |turns| && AllSmooth(turns)
    requires SweepOver(s, listing, project, turns, indexing).completed
    ensures ActiveIds(SweepOver(s, listing, project, turns, indexing).state.entries, project) == {}
  {
    var after := SweepOver(s, listing, project, turns, indexing).state;
    DeleteAllExactly(s, listing, project, turns, indexing);
    forall id | id in s.entries
      ensures !(after.entries[id].project == Some(project) && after.entries[id].status == Active)
    {
      if s.entries[id].project == Some(project) {
        var k := PositionOf(s, listing, project, id);
        assert Deleted(listing, turns, k) <==> s.entries[id].status == Active;
        assert DeletedId(listing, turns, id) <==> Deleted(listing, turns, k);
      }
    }
  }

  /******* Compacting short-term memory *******/

  datatype Compaction = Compaction(ltm: L.State, stm: S.Shelf, result: L.Result)

  predicate CompactionWorks(shelf: S.Shelf, policy: S.Policy, fault: S.Fault) {
    fault == S.Reliable || !S.Effective(S.Fetch(shelf, policy), policy)
  }

  ghost function CompactStep(s: L.State, shelf: S.Shelf, r: L.Request, approved: bool, at: Time, policy: S.Policy,
                             fault: S.Fault, faults: L.Faults): Compaction
    requires S.ValidPolicy(policy)
  {
    var mutation := L.IdOf(s, r);
    var s1 := L.Drawn(s, r);
    var now := L.MomentOf(r, at);
    var record := L.AuditRecord(0, L.CompactStm, L.Denied, r.project, None, None, None, now);
    if !approved then
      if faults.audit then Compaction(s1, shelf, L.Thrown)
      else Compaction(L.Append(s1, mutation, record), shelf, L.Returned(false, mutation, None, None))
    else
      var shelf' := if r.project.Some? then S.Step(shelf, S.Call(policy, S.Compact(fault))) else shelf;
      if r.project.Some? && CompactionWorks(shelf, policy, fault) && !faults.audit then
        Compaction(L.Append(s1, mutation, record.(outcome := L.Applied)), shelf',
                   L.Returned(true, mutation, None, None))
      else if faults.failedAudit then Compaction(s1, shelf', L.Thrown)
      else Compaction(L.Append(s1, mutation, record.(outcome := L.Failed)), shelf',
                      L.Returned(false, mutation, None, None))
  }

  // The two memories under one log: a compaction that returns leaves one record whose outcome matches, and
  // long-term data never change.
  lemma CompactionIsRecorded(s: L.State, shelf: S.Shelf, r: L.Request, approved: bool, at: Time, policy: S.Policy,
                             fault: S.Fault, faults: L.Faults)
    requires S.ValidPolicy(policy)
    ensures
      var c := CompactStep(s, shelf, r, approved, at, policy, fault, faults);
      L.SameData(s, c.ltm) && L.Recorded(s.audit, c.ltm.audit, c.result)
  {
    var s1, now := L.Drawn(s, r), L.MomentOf(r, at);
    var denied := L.AuditRecord(0, L.CompactStm, L.Denied, r.project, None, None, None, now);
    AppendIsRecorded(s, s1, L.IdOf(s, r), denied, false);
    AppendIsRecorded(s, s1, L.IdOf(s, r), denied.(outcome := L.Applied), true);
    AppendIsRecorded(s, s1, L.IdOf(s, r), denied.(outcome := L.Failed), false);
  }

  // That record says what was asked for, of which project, when, and what became of it; it stands under the id that the
  // request brings, or the next one.
  lemma CompactionRecordSays(s: L.State, shelf: S.Shelf, r: L.Request, approved: bool, at: Time, policy: S.Policy,
                             fault: S.Fault, faults: L.Faults)
    requires S.ValidPolicy(policy)
    requires CompactStep(s, shelf, r, approved, at, policy, fault, faults).result.Returned?
    ensures
      var c := CompactStep(s, shelf, r, approved, at, policy, fault, faults);
      var id := if r.id.Some? then r.id.value else Issued(s.nextId);
      && c.result.mutation == id && id in c.ltm.audit
      && c.ltm.audit[id].action == L.CompactStm && c.ltm.audit[id].project == r.project
      && c.ltm.audit[id].target.None?
      && c.ltm.audit[id].occurredAt == (if r.requestedAt.Some? then r.requestedAt.value else at)
      && c.ltm.audit[id].outcome == (if c.result.applied then L.Applied else if approved then L.Failed else L.Denied)
  {
    var c := CompactStep(s, shelf, r, approved, at, policy, fault, faults);
    var s1, now := L.Drawn(s, r), L.MomentOf(r, at);
    var denied := L.AuditRecord(0, L.CompactStm, L.Denied, r.project, None, None, None, now);
    var outcome := if c.result.applied then L.Applied else if approved then L.Failed else L.Denied;
    assert c.ltm == L.Append(s1, L.IdOf(s, r), denied.(outcome := outcome));
  }

  lemma AppendIsRecorded(s: L.State, s1: L.State, id: MutationId, record: L.AuditRecord, applied: bool)
    requires s1 == s.(nextId := s1.nextId) && record.resulting.None? && record.tombstone.None?
    requires applied <==> record.outcome == L.Applied
    ensures L.SameData(s, s1) && L.SameData(s, L.Append(s1, id, record))
    ensures L.Recorded(s.audit, L.Append(s1, id, record).audit, L.Returned(applied, id, None, None))
  {
  }

  // What a compaction reports: success if and only if it was approved, went through or had nothing to do, and was
  // recorded; an exception if and only if the last record it tries to leave is lost.
  lemma CompactionMatchesItsRecord(s: L.State, shelf: S.Shelf, r: L.Request, approved: bool, at: Time, policy: S.Policy,
                                   fault: S.Fault, faults: L.Faults)
    requires S.ValidPolicy(policy)
    ensures
      var c := CompactStep(s, shelf, r, approved, at, policy, fault, faults);
      var works := fault == S.Reliable || |S.Live(shelf)| < policy.minEntries;
      var through := approved && r.project.Some? && works && !faults.audit;
      && (!L.Unapplied(c.result) <==> through)
      && (c.result.Thrown? <==> !through && if approved then faults.failedAudit else faults.audit)
      && (through ==> c.stm == S.Step(shelf, S.Call(policy, S.Compact(S.Reliable))))
  {
  }

  // There is something to compact, and the compaction is let through to it.
  predicate Compacts(shelf: S.Shelf, r: L.Request, approved: bool, policy: S.Policy) {
    approved && r.project.Some? && |S.Live(shelf)| >= policy.minEntries
  }

  // A compaction that throws or reports failure: the shelf is as it was if and only if there was nothing to compact or
  // already the record could not be put; the live context is as it was if and only if there was nothing to compact or a
  // put failed. A context that was compacted all the same takes a lost audit record.
  lemma UnappliedCompactionExactly(s: L.State, shelf: S.Shelf, r: L.Request, approved: bool, at: Time, policy: S.Policy,
                                   fault: S.Fault, faults: L.Faults)
    requires S.ValidPolicy(policy)
    requires L.Unapplied(CompactStep(s, shelf, r, approved, at, policy, fault, faults).result)
    ensures
      var c := CompactStep(s, shelf, r, approved, at, policy, fault, faults);
      var some := Compacts(shelf, r, approved, policy);
      && (c.stm == shelf <==> !(some && fault != S.RecordPutFails))
      && (c.stm.stored == shelf.stored <==> !(some && fault == S.Reliable))
      && (some && fault == S.Reliable ==> faults.audit)
  {
    var c := CompactStep(s, shelf, r, approved, at, policy, fault, faults);
    if Compacts(shelf, r, approved, policy) {
      assert c.stm == S.Step(shelf, S.Call(policy, S.Compact(fault)));
      if fault != S.RecordPutFails {
        assert |c.stm.records| == |shelf.records| + 1;
      }
      if fault == S.Reliable {
        S.CommittedWindow(shelf, policy);
        assert |S.Live(c.stm)| < |S.Live(shelf)|;
      }
    } else {
      assert c.stm == shelf;
    }
  }

  // Two appended messages under a policy that keeps one of them.
  lemma TwoMessages() returns (calls: seq<S.Call>, policy: S.Policy, r: L.Request)
    ensures S.ValidCalls(calls) && S.ValidPolicy(policy) && r.action == L.CompactStm
    ensures Compacts(S.Run(calls), r, true, policy)
  {
    policy := S.Policy(2, 1, 2, 1);
    r := L.Request(None, L.CompactStm, Some(0), None, None, None);
    var one := S.AppendMessage([], policy);
    calls := S.AppendMessage(one, policy);
    assert S.Live(S.Run(calls)) == [] + [S.MESSAGE] + [S.MESSAGE];
  }

  const BOTH_LOST := L.Faults(false, false, false, false, true, true)

  // Three compactions that do not report success over a shelf that has changed: the success record is lost, so failure
  // is reported; both audit records are lost, so it throws; the context put fails, and the compaction record stays.
  lemma CompactionWithoutRecord() returns (calls: seq<S.Call>, policy: S.Policy, r: L.Request)
    ensures S.ValidCalls(calls) && S.ValidPolicy(policy) && r.action == L.CompactStm
    ensures
      var shelf := S.Run(calls);
      var lost := CompactStep(L.EMPTY, shelf, r, true, 0, policy, S.Reliable, L.LOST);
      var thrown := CompactStep(L.EMPTY, shelf, r, true, 0, policy, S.Reliable, BOTH_LOST);
      var torn := CompactStep(L.EMPTY, shelf, r, true, 0, policy, S.ContextPutFails, L.RELIABLE);
      && lost.result.Returned? && !lost.result.applied && lost.stm.stored != shelf.stored
      && thrown.result.Thrown? && thrown.stm.stored != shelf.stored
      && torn.result.Returned? && !torn.result.applied && torn.stm.stored == shelf.stored && torn.stm != shelf
  {
    calls, policy, r := TwoMessages();
    var shelf := S.Run(calls);
    CompactionMatchesItsRecord(L.EMPTY, shelf, r, true, 0, policy, S.Reliable, L.LOST);
    UnappliedCompactionExactly(L.EMPTY, shelf, r, true, 0, policy, S.Reliable, L.LOST);
    CompactionMatchesItsRecord(L.EMPTY, shelf, r, true, 0, policy, S.Reliable, BOTH_LOST);
    UnappliedCompactionExactly(L.EMPTY, shelf, r, true, 0, policy, S.Reliable, BOTH_LOST);
    CompactionMatchesItsRecord(L.EMPTY, shelf, r, true, 0, policy, S.ContextPutFails, L.RELIABLE);
    UnappliedCompactionExactly(L.EMPTY, shelf, r, true, 0, policy, S.ContextPutFails, L.RELIABLE);
  }

  /******* Runs of the pipeline, over both memories *******/

  datatype Memories = Memories(ltm: L.State, stm: map<ProjectId, S.Shelf>)

  datatype Event =
    | Submit(call: L.Call)
    | Mutate(call: L.Call)
    | CompactMemory(request: L.Request, approved: bool, at: Time, fault: S.Fault, faults: L.Faults)
    | DeleteAll(listing: seq<Entry>, project: ProjectId, turns: seq<Turn>, clearFails: bool)

  function ShelfOf(m: Memories, project: Option<ProjectId>): S.Shelf {
    if project.Some? && project.value in m.stm then m.stm[project.value] else S.EMPTY
  }

  // A mutation that asks for a compaction is no mutation of the runtime.
  ghost predicate Enabled(m: Memories, e: Event) {
    match e
    case Submit(call) => call.Write?
    case Mutate(call) => call.Mutate? && call.request.action != L.CompactStm
    case CompactMemory(request, _, _, _, _) => request.action == L.CompactStm
    case DeleteAll(listing, project, turns, _) => IsListing(m.ltm.entries, project, listing) && |listing| <= |turns|
  }

  ghost function Compacting(m: Memories, e: Event, policy: S.Policy): Compaction
    requires S.ValidPolicy(policy) && e.CompactMemory?
  {
    CompactStep(m.ltm, ShelfOf(m, e.request.project), e.request, e.approved, e.at, policy, e.fault, e.faults)
  }

  ghost function Sweeping(m: Memories, e: Event, indexing: bool): Sweep
    requires e.DeleteAll? && |e.listing| <= |e.turns|
  {
    SweepOver(m.ltm, e.listing, e.project, e.turns, indexing)
  }

  ghost function EventStep(m: Memories, e: Event, policy: S.Policy, indexing: bool): Memories
    requires S.ValidPolicy(policy) && Enabled(m, e)
  {
    match e
    case Submit(call) => m.(ltm := SubmitStep(m.ltm, call, indexing).0)
    case Mutate(call) => m.(ltm := L.Step(m.ltm, call, indexing).0)
    case CompactMemory(request, _, _, _, _) =>
      var c := Compacting(m, e, policy);
      Memories(c.ltm, if request.project.Some? then m.stm[request.project.value := c.stm] else m.stm)
    case DeleteAll(_, project, _, clearFails) =>
      var sweep := Sweeping(m, e, indexing);
      var cleared := S.Step(ShelfOf(m, Some(project)), S.Call(policy, S.Clear(clearFails)));
      Memories(sweep.state, if sweep.completed then m.stm[project := cleared] else m.stm)
  }

  // What an event does to the short-term memory of a project: an approved compaction of it compacts, a deletion of it
  // that came through its sweep clears, and nothing else touches it.
  lemma EventShelves(m: Memories, e: Event, policy: S.Policy, indexing: bool, q: ProjectId)
    requires S.ValidPolicy(policy) && Enabled(m, e)
    ensures
      var before, after := ShelfOf(m, Some(q)), ShelfOf(EventStep(m, e, policy, indexing), Some(q));
      after ==
        if e.CompactMemory? && e.approved && e.request.project == Some(q)
        then S.Step(before, S.Call(policy, S.Compact(e.fault)))
        else if e.DeleteAll? && e.project == q && Sweeping(m, e, indexing).completed
        then S.Step(before, S.Call(policy, S.Clear(e.clearFails)))
        else before
  {
    if e.CompactMemory? && e.request.project == Some(q) {
      assert ShelfOf(EventStep(m, e, policy, indexing), Some(q)) == Compacting(m, e, policy).stm;
    } else if e.DeleteAll? && e.project == q && Sweeping(m, e, indexing).completed {
      assert ShelfOf(EventStep(m, e, policy, indexing), Some(q)) ==
             S.Step(ShelfOf(m, Some(q)), S.Call(policy, S.Clear(e.clearFails)));
    }
  }

  // A deletion that neither stops nor fails to clear leaves the project without a short-term context, keeps its
  // compaction records, and leaves other projects' memory alone.
  lemma DeleteAllForgets(m: Memories, e: Event, policy: S.Policy, indexing: bool, q: ProjectId)
    requires S.ValidPolicy(policy) && Enabled(m, e) && e.DeleteAll? && L.Invariant(m.ltm) && !e.clearFails
    requires forall k: nat :: k < |e.listing| ==> !Stops(e.listing, e.turns, k)
    ensures
      var before, after := ShelfOf(m, Some(q)), ShelfOf(EventStep(m, e, policy, indexing), Some(q));
      if q == e.project then S.Live(after) == [] && S.SummaryOf(after) == "" && after.records == before.records
      else after == before
  {
    hide SweepOver, EventStep, Stops, SoftDeletedFrom, DeletedId, Reported;
    EventShelves(m, e, policy, indexing, q);
    DeleteAllExactly(m.ltm, e.listing, e.project, e.turns, indexing);
  }

  ghost predicate Enabling(m: Memories, events: seq<Event>, policy: S.Policy, indexing: bool)
    requires S.ValidPolicy(policy)
    decreases |events|
  {
    events == [] || (Enabled(m, events[0])
                     && Enabling(EventStep(m, events[0], policy, indexing), events[1..], policy, indexing))
  }

  ghost function After(m: Memories, events: seq<Event>, policy: S.Policy, indexing: bool): Memories
    requires S.ValidPolicy(policy) && Enabling(m, events, policy, indexing)
    decreases |events|
  {
    if events == [] then m else After(EventStep(m, events[0], policy, indexing), events[1..], policy, indexing)
  }

  lemma {:induction false} SweepEvolves(s: L.State, listing: seq<Entry>, project: ProjectId, turns: seq<Turn>,
                                        indexing: bool)
    requires L.Invariant(s) && |listing| <= |turns|
    ensures var s' := SweepOver(s, listing, project, turns, indexing).state; L.Invariant(s') && L.Evolves(s, s')
  {
    L.NextIdIsSound(s);
    if listing == [] {
    } else {
      var n := |listing| - 1;
      SweepEvolves(s, listing[..n], project, turns, indexing);
      var before := SweepOver(s, listing[..n], project, turns, indexing);
      if before.completed && listing[n].status == Active {
        var call := DeleteCall(listing[n].id, project, turns[n]);
        L.StepIsSound(before.state, call, indexing);
        L.EvolvesTransitive(s, before.state, L.Step(before.state, call, indexing).0);
      }
    }
  }

  lemma CompactionTouchesLogOnly(s: L.State, shelf: S.Shelf, r: L.Request, approved: bool, at: Time, policy: S.Policy,
                                 fault: S.Fault, faults: L.Faults)
    requires S.ValidPolicy(policy)
    ensures L.SameButAudit(L.Drawn(s, r), CompactStep(s, shelf, r, approved, at, policy, fault, faults).ltm)
  {
  }

  lemma CompactionIsSound(m: Memories, e: Event, policy: S.Policy)
    requires S.ValidPolicy(policy) && e.CompactMemory? && L.Invariant(m.ltm)
    ensures var s' := Compacting(m, e, policy).ltm; L.Invariant(s') && L.Evolves(m.ltm, s')
  {
    var s1 := L.Drawn(m.ltm, e.request);
    assert L.Invariant(s1) && L.Evolves(m.ltm, s1) by {
      L.NextIdIsSound(m.ltm);
    }
    CompactionTouchesLogOnly(m.ltm, ShelfOf(m, e.request.project), e.request, e.approved, e.at, policy, e.fault,
                             e.faults);
    L.AuditIsApart(m.ltm, s1, Compacting(m, e, policy).ltm);
  }

  lemma EventIsSound(m: Memories, e: Event, policy: S.Policy, indexing: bool)
    requires S.ValidPolicy(policy) && Enabled(m, e) && L.Invariant(m.ltm)
    ensures var s' := EventStep(m, e, policy, indexing).ltm; L.Invariant(s') && L.Evolves(m.ltm, s')
  {
    match e
    case Submit(call) => SubmitIsSound(m.ltm, call, indexing);
    case Mutate(call) => L.StepIsSound(m.ltm, call, indexing);
    case CompactMemory(_, _, _, _, _) => CompactionIsSound(m, e, policy);
    case DeleteAll(listing, project, turns, _) => SweepEvolves(m.ltm, listing, project, turns, indexing);
  }

  // The invariant of the runtime and the evolution of every entry extend to all runs of the pipeline.
  lemma {:induction false} PipelineIsSound(m: Memories, events: seq<Event>, policy: S.Policy, indexing: bool)
    requires S.ValidPolicy(policy) && Enabling(m, events, policy, indexing) && L.Invariant(m.ltm)
    ensures var s' := After(m, events, policy, indexing).ltm; L.Invariant(s') && L.Evolves(m.ltm, s')
    decreases |events|
  {
    L.NextIdIsSound(m.ltm);
    if events == [] {
    } else {
      var m1 := EventStep(m, events[0], policy, indexing);
      EventIsSound(m, events[0], policy, indexing);
      PipelineIsSound(m1, events[1..], policy, indexing);
      L.EvolvesTransitive(m.ltm, m1.ltm, After(m1, events[1..], policy, indexing).ltm);
    }
  }

  /******* The log of a pipeline run *******/

  // The mutation id under which a call left its record, if it did.
  function Logged(result: L.Result): seq<MutationId> {
    if result.Returned? then [result.mutation] else []
  }

  ghost function SweepLogged(s: L.State, listing: seq<Entry>, project: ProjectId, turns: seq<Turn>,
                             indexing: bool): seq<MutationId>
    requires |listing| <= |turns|
  {
    if listing == [] then []
    else
      var n := |listing| - 1;
      var before := SweepOver(s, listing[..n], project, turns, indexing);
      SweepLogged(s, listing[..n], project, turns, indexing)
      + (if !before.completed || listing[n].status != Active then []
         else Logged(L.Step(before.state, DeleteCall(listing[n].id, project, turns[n]), indexing).1))
  }

  ghost function EventLogged(m: Memories, e: Event, policy: S.Policy, indexing: bool): seq<MutationId>
    requires S.ValidPolicy(policy) && Enabled(m, e)
  {
    match e
    case Submit(call) => Logged(SubmitStep(m.ltm, call, indexing).1)
    case Mutate(call) => Logged(L.Step(m.ltm, call, indexing).1)
    case CompactMemory(_, _, _, _, _) => Logged(Compacting(m, e, policy).result)
    case DeleteAll(listing, project, turns, _) => SweepLogged(m.ltm, listing, project, turns, indexing)
  }

  // The mutation ids of all calls of the run that returned, in order.
  ghost function RunLogged(m: Memories, events: seq<Event>, policy: S.Policy, indexing: bool): seq<MutationId>
    requires S.ValidPolicy(policy) && Enabling(m, events, policy, indexing)
    decreases |events|
  {
    if events == [] then []
    else EventLogged(m, events[0], policy, indexing)
           + RunLogged(EventStep(m, events[0], policy, indexing), events[1..], policy, indexing)
  }

  // No id occurs twice among these, nor in the log already.
  ghost predicate AllNew(audit: L.Audit, ids: seq<MutationId>) {
    Distinct(ids) && forall id :: id in ids ==> id !in audit
  }

  // What leaving records under these ids, one after the other, makes of a log.
  ghost predicate Grows(audit: L.Audit, ids: seq<MutationId>, audit': L.Audit) {
    && (forall id :: id in audit' <==> id in audit || id in ids)
    && |audit'| <= |audit| + |ids|
    && (|audit'| == |audit| + |ids| <==> AllNew(audit, ids))
    && (L.Numbered(audit) && AllNew(audit, ids) ==> L.Numbered(audit'))
  }

  lemma GrowsNone(audit: L.Audit)
    ensures Grows(audit, [], audit)
  {
  }

  lemma GrowsOne(audit: L.Audit, audit': L.Audit, result: L.Result)
    requires L.Recorded(audit, audit', result)
    ensures Grows(audit, Logged(result), audit')
  {
    if result.Returned? {
      L.GrowsByNewKey(audit, result.mutation, audit'[result.mutation]);
      if L.Numbered(audit) && result.mutation !in audit {
        L.NumberedGrows(audit, result.mutation, audit'[result.mutation]);
      }
    }
  }

  lemma AllNewSplits(a: L.Audit, x: seq<MutationId>, b: L.Audit, y: seq<MutationId>)
    requires forall id :: id in b <==> id in a || id in x
    ensures AllNew(a, x + y) <==> AllNew(a, x) && AllNew(b, y)
  {
    var all := x + y;
    assert forall i :: 0 <= i < |x| ==> all[i] == x[i];
    assert forall i :: 0 <= i < |y| ==> all[|x| + i] == y[i];
    if AllNew(a, x) && AllNew(b, y) {
      forall i, j | 0 <= i < j < |all| ensures all[i] != all[j] {
        if i < |x| <= j {
          assert all[i] in x && all[j] in y;
        }
      }
    }
    if AllNew(a, all) {
      forall id | id in y ensures id !in b {
        var j :| 0 <= j < |y| && y[j] == id;
        assert all[|x| + j] == id;
        assert forall i :: 0 <= i < |x| ==> all[i] != all[|x| + j];
      }
    }
  }

  lemma GrowsOn(a: L.Audit, x: seq<MutationId>, b: L.Audit, y: seq<MutationId>, c: L.Audit)
    requires Grows(a, x, b) && Grows(b, y, c)
    ensures Grows(a, x + y, c)
  {
    AllNewSplits(a, x, b, y);
  }

  // One more listed entry grows the log by what its delete recorded.
  lemma SweepGrowsStep(s: L.State, listing: seq<Entry>, project: ProjectId, turns: seq<Turn>, indexing: bool)
    requires listing != [] && |listing| <= |turns|
    requires var init := listing[..|listing| - 1];
             Grows(s.audit, SweepLogged(s, init, project, turns, indexing),
                   SweepOver(s, init, project, turns, indexing).state.audit)
    ensures Grows(s.audit, SweepLogged(s, listing, project, turns, indexing),
                  SweepOver(s, listing, project, turns, indexing).state.audit)
  {
    var n := |listing| - 1;
    var before, after := SweepOver(s, listing[..n], project, turns, indexing),
      SweepOver(s, listing, project, turns, indexing);
    var ids, all := SweepLogged(s, listing[..n], project, turns, indexing),
      SweepLogged(s, listing, project, turns, indexing);
    if before.completed && listing[n].status == Active {
      var call := DeleteCall(listing[n].id, project, turns[n]);
      var (s', result) := L.Step(before.state, call, indexing);
      assert after.state == s' && all == ids + Logged(result);
      assert Grows(before.state.audit, Logged(result), s'.audit) by {
        L.MutateRecords(before.state, call, indexing);
        GrowsOne(before.state.audit, s'.audit, result);
      }
      GrowsOn(s.audit, ids, before.state.audit, Logged(result), s'.audit);
    } else {
      assert after == before && all == ids;
    }
  }

  lemma {:induction false} SweepGrows(s: L.State, listing: seq<Entry>, project: ProjectId, turns: seq<Turn>,
                                      indexing: bool)
    requires |listing| <= |turns|
    ensures Grows(s.audit, SweepLogged(s, listing, project, turns, indexing),
                  SweepOver(s, listing, project, turns, indexing).state.audit)
  {
    if listing == [] {
      GrowsNone(s.audit);
    } else {
      SweepGrows(s, listing[..|listing| - 1], project, turns, indexing);
      SweepGrowsStep(s, listing, project, turns, indexing);
    }
  }

  lemma EventGrows(m: Memories, e: Event, policy: S.Policy, indexing: bool)
    requires S.ValidPolicy(policy) && Enabled(m, e)
    ensures Grows(m.ltm.audit, EventLogged(m, e, policy, indexing), EventStep(m, e, policy, indexing).ltm.audit)
  {
    match e
    case Submit(call) =>
      SubmitIsRecorded(m.ltm, call, indexing);
      GrowsOne(m.ltm.audit, SubmitStep(m.ltm, call, indexing).0.audit, SubmitStep(m.ltm, call, indexing).1);
    case Mutate(call) =>
      L.MutateRecords(m.ltm, call, indexing);
      GrowsOne(m.ltm.audit, L.Step(m.ltm, call, indexing).0.audit, L.Step(m.ltm, call, indexing).1);
    case CompactMemory(r, approved, at, fault, faults) =>
      CompactionIsRecorded(m.ltm, ShelfOf(m, r.project), r, approved, at, policy, fault, faults);
      GrowsOne(m.ltm.audit, Compacting(m, e, policy).ltm.audit, Compacting(m, e, policy).result);
    case DeleteAll(listing, project, turns, _) => SweepGrows(m.ltm, listing, project, turns, indexing);
  }

  lemma {:induction false} RunGrows(m: Memories, events: seq<Event>, policy: S.Policy, indexing: bool)
    requires S.ValidPolicy(policy) && Enabling(m, events, policy, indexing)
    ensures Grows(m.ltm.audit, RunLogged(m, events, policy, indexing), After(m, events, policy, indexing).ltm.audit)
    decreases |events|
  {
    if events == [] {
      GrowsNone(m.ltm.audit);
    } else {
      var m1 := EventStep(m, events[0], policy, indexing);
      EventGrows(m, events[0], policy, indexing);
      RunGrows(m1, events[1..], policy, indexing);
      GrowsOn(m.ltm.audit, EventLogged(m, events[0], policy, indexing), m1.ltm.audit,
              RunLogged(m1, events[1..], policy, indexing), After(m1, events[1..], policy, indexing).ltm.audit);
    }
  }

  // Over every run of submissions, mutations, compactions and project deletions, under every fault: the log holds a
  // record of its own for every call that returned if and only if no mutation id repeats, and is then numbered 1..n
  // without a gap.
  lemma PipelineLogIsComplete(m: Memories, events: seq<Event>, policy: S.Policy, indexing: bool)
    requires S.ValidPolicy(policy) && Enabling(m, events, policy, indexing) && L.Numbered(m.ltm.audit)
    ensures
      var ids, audit := RunLogged(m, events, policy, indexing), After(m, events, policy, indexing).ltm.audit;
      && (forall id :: id in audit <==> id in m.ltm.audit || id in ids)
      && (|audit| == |m.ltm.audit| + |ids| <==> AllNew(m.ltm.audit, ids))
      && (AllNew(m.ltm.audit, ids) ==> L.Numbered(audit))
  {
    RunGrows(m, events, policy, indexing);
  }

  /******* The vector index of a pipeline run *******/

  predicate EventStrands(s: L.State, e: Event, indexing: bool) {
    match e
    case Submit(call) => call.Write? && Strands(call, indexing)
    case Mutate(call) => call.Mutate? && L.StrandsVector(s, call, indexing)
    case CompactMemory(_, _, _, _, _) => false
    case DeleteAll(_, _, _, _) => false
  }

  ghost predicate NeverStrands(m: Memories, events: seq<Event>, policy: S.Policy, indexing: bool)
    requires S.ValidPolicy(policy) && Enabling(m, events, policy, indexing)
    decreases |events|
  {
    events == []
    || (!EventStrands(m.ltm, events[0], indexing)
        && NeverStrands(EventStep(m, events[0], policy, indexing), events[1..], policy, indexing))
  }

  lemma EventIndexBackedExactly(m: Memories, e: Event, policy: S.Policy, indexing: bool)
    requires S.ValidPolicy(policy) && Enabled(m, e) && L.Invariant(m.ltm) && L.Backed(m.ltm)
    ensures L.Backed(EventStep(m, e, policy, indexing).ltm) <==> !EventStrands(m.ltm, e, indexing)
  {
    match e
    case Submit(call) => SubmitIndexBackedExactly(m.ltm, call, indexing);
    case Mutate(call) => L.IndexBackedExactly(m.ltm, call, indexing);
    case CompactMemory(r, approved, at, fault, faults) =>
      CompactionIsRecorded(m.ltm, ShelfOf(m, r.project), r, approved, at, policy, fault, faults);
    case DeleteAll(listing, project, turns, _) => DeleteAllExactly(m.ltm, listing, project, turns, indexing);
  }

  // Over every run of the pipeline: at the end every vector belongs to a stored entry if and only if no submission and
  // no mutation of the run stranded one.
  lemma {:induction false} PipelineIndexExactly(m: Memories, events: seq<Event>, policy: S.Policy, indexing: bool)
    requires S.ValidPolicy(policy) && Enabling(m, events, policy, indexing) && L.Invariant(m.ltm) && L.Backed(m.ltm)
    ensures L.Backed(After(m, events, policy, indexing).ltm) <==> NeverStrands(m, events, policy, indexing)
    decreases |events|
  {
    hide EventStep;
    if events == [] {
    } else {
      var m1 := EventStep(m, events[0], policy, indexing);
      EventIndexBackedExactly(m, events[0], policy, indexing);
      EventIsSound(m, events[0], policy, indexing);
      if L.Backed(m1.ltm) {
        PipelineIndexExactly(m1, events[1..], policy, indexing);
      } else {
        PipelineIsSound(m1, events[1..], policy, indexing);
        L.UnbackedStays(m1.ltm, After(m1, events[1..], policy, indexing).ltm);
      }
    }
  }

  /******* The pipeline *******/

  class Pipeline {
    const runtime: L.GovernedTypedLtmRuntime
    const stm: S.DocumentStmStore

    constructor (runtime: L.GovernedTypedLtmRuntime, stm: S.DocumentStmStore)
      ensures this.runtime == runtime && this.stm == stm
    {
      this.runtime, this.stm := runtime, stm;
    }

    method SubmitCandidate(c: L.Candidate, project: Option<ProjectId>, policy: Option<bool>, approved: bool, at: Time,
                           faults: L.Faults)
      returns (result: L.Result)
      modifies runtime
      ensures (runtime.Now(), result) ==
              SubmitStep(old(runtime.Now()), L.Write(c, project, policy, approved, at, faults), runtime.indexing)
    {
      if !L.Supported(c) {
        return L.Thrown;
      }
      if L.Typed(c) {
        result := runtime.WriteEntry(c, project, policy, approved, at, faults);
        return;
      }
      result := runtime.AdmitCandidate(c, project, approved, at, faults);
    }

    method ListForProject(project: ProjectId) returns (listing: seq<Entry>)
      requires L.Invariant(runtime.Now())
      ensures IsListing(runtime.entries, project, listing)
    {
      assert forall id :: id in runtime.entries ==> L.WellLinked(runtime.entries[id], id, runtime.Now());
      listing := MatchingEntries(runtime.entries, ListFilter(project));
      assert forall e :: Matches(e, ListFilter(project)) <==> e.project == Some(project);
    }

    // Soft-delete the active entries of the listing; stops at the first call that throws.
    method SweepListing(listing: seq<Entry>, project: ProjectId, turn: nat -> Turn)
      returns (count: nat, completed: bool)
      modifies runtime
      ensures SweepOver(old(runtime.Now()), listing, project, Turns(turn, |listing|), runtime.indexing) ==
              Sweep(runtime.Now(), count, completed)
    {
      ghost var before, turns := runtime.Now(), Turns(turn, |listing|);
      count, completed := 0, true;
      for k := 0 to |listing|
        invariant SweepOver(before, listing[..k], project, turns, runtime.indexing) == Sweep(runtime.Now(), count, true)
      {
        SweepNext(before, listing, k, project, turns, runtime.indexing, Sweep(runtime.Now(), count, true));
        if listing[k].status != Active {
          continue;
        }
        var t := turn(k);
        var result := runtime.MutateEntry(L.Request(None, L.SoftDelete, Some(project), Some(listing[k].id), None, None),
                                          t.approved, t.at, t.faults);
        if result.Thrown? {
          StopsForGood(before, listing, k + 1, project, turns, runtime.indexing);
          completed := false;
          return;
        }
        if result.applied {
          count := count + 1;
        }
      }
      assert listing[..|listing|] == listing;
    }

    // Returns None if a delete, or the clearing, threw; short-term memory is cleared only after a sweep that completed.
    method DeleteAllForProject(project: ProjectId, turn: nat -> Turn, clearFails: bool)
      returns (count: Option<nat>, ghost listing: seq<Entry>)
      requires L.Invariant(runtime.Now()) && S.ValidPolicy(stm.policy)
      modifies runtime, stm
      ensures IsListing(old(runtime.entries), project, listing)
      ensures
        var sweep := SweepOver(old(runtime.Now()), listing, project, Turns(turn, |listing|), runtime.indexing);
        && runtime.Now() == sweep.state
        && count == (if sweep.completed && !clearFails then Some(sweep.count) else None)
        && stm.View(project) ==
           (if sweep.completed then S.Step(old(stm.View(project)), S.Call(stm.policy, S.Clear(clearFails)))
                                 else old(stm.View(project)))
      ensures count.Some? ==> project !in stm.documents && stm.records == old(stm.records)
      ensures forall q: ProjectId :: q != project ==> stm.View(q) == old(stm.View(q))
    {
      var found := ListForProject(project);
      listing := found;
      var n, completed := SweepListing(found, project, turn);
      if !completed {
        return None, listing;
      }
      var cleared := stm.ClearProject(project, clearFails);
      count := if cleared then Some(n) else None;
    }

    // Mutations go to the runtime, except for compactions.
    method MutateMemory(request: L.Request, approved: bool, at: Time, fault: S.Fault, faults: L.Faults)
      returns (result: L.Result)
      requires S.ValidPolicy(stm.policy)
      modifies runtime, stm
      ensures request.action != L.CompactStm ==>
                && (runtime.Now(), result) ==
                   L.MutateStep(old(runtime.Now()), L.Mutate(request, approved, at, faults), runtime.indexing)
                && forall q: ProjectId :: stm.View(q) == old(stm.View(q))
      ensures request.action == L.CompactStm ==>
                var project := if request.project.Some? then request.project.value else 0;
                var c := CompactStep(old(runtime.Now()), old(stm.View(project)), request, approved, at, stm.policy,
                                     fault, faults);
                && runtime.Now() == c.ltm && stm.View(project) == c.stm && result == c.result
                && (forall q: ProjectId :: q != project ==> stm.View(q) == old(stm.View(q)))
    {
      if request.action == L.CompactStm {
        result := CompactStm(request, approved, at, fault, faults);
      } else {
        result := runtime.MutateEntry(request, approved, at, faults);
      }
    }

    method CompactStm(r: L.Request, approved: bool, at: Time, fault: S.Fault, faults: L.Faults)
      returns (result: L.Result)
      requires S.ValidPolicy(stm.policy)
      modifies runtime, stm
      ensures
        var project := if r.project.Some? then r.project.value else 0;
        var c := CompactStep(old(runtime.Now()), old(stm.View(project)), r, approved, at, stm.policy, fault, faults);
        && runtime.Now() == c.ltm && stm.View(project) == c.stm && result == c.result
        && (forall q: ProjectId :: q != project ==> stm.View(q) == old(stm.View(q)))
    {
      var mutation: MutationId;
      if r.id.Some? {
        mutation := r.id.value;
      } else {
        var id := runtime.DrawId();
        mutation := Issued(id);
      }
      assert runtime.Now() == L.Drawn(old(runtime.Now()), r) && mutation == L.IdOf(old(runtime.Now()), r);
      var now := L.MomentOf(r, at);
      var record := L.AuditRecord(0, L.CompactStm, L.Denied, r.project, None, None, None, now);
      if !approved {
        var logged := runtime.AppendAuditRecord(mutation, record, faults.audit);
        return if logged then L.Returned(false, mutation, None, None) else L.Thrown;
      }
      result := CompactAndRecord(r.project, mutation, record, fault, faults);
    }

    // The approved part of a compaction: do it and record that, or else record the failure.
    method CompactAndRecord(project: Option<ProjectId>, mutation: MutationId, record: L.AuditRecord, fault: S.Fault,
                            faults: L.Faults)
      returns (result: L.Result)
      requires S.ValidPolicy(stm.policy)
      modifies runtime, stm
      ensures
        var p := if project.Some? then project.value else 0;
        var ok := project.Some? && CompactionWorks(old(stm.View(p)), stm.policy, fault);
        && stm.View(p) ==
           (if project.Some? then S.Step(old(stm.View(p)), S.Call(stm.policy, S.Compact(fault))) else old(stm.View(p)))
        && (forall q: ProjectId :: q != p ==> stm.View(q) == old(stm.View(q)))
        && (if ok && !faults.audit then
              && runtime.Now() == L.Append(old(runtime.Now()), mutation, record.(outcome := L.Applied))
              && result == L.Returned(true, mutation, None, None)
            else if faults.failedAudit then runtime.Now() == old(runtime.Now()) && result == L.Thrown
            else
              && runtime.Now() == L.Append(old(runtime.Now()), mutation, record.(outcome := L.Failed))
              && result == L.Returned(false, mutation, None, None))
    {
      if project.Some? {
        var compacted := stm.CompactProject(project.value, fault);
        if compacted {
          var logged := runtime.AppendAuditRecord(mutation, record.(outcome := L.Applied), faults.audit);
          if logged {
            return L.Returned(true, mutation, None, None);
          }
        }
      }
      var logged := runtime.AppendAuditRecord(mutation, record.(outcome := L.Failed), faults.failedAudit);
      result := if logged then L.Returned(false, mutation, None, None) else L.Thrown;
    }
  }

  function Turns(turn: nat -> Turn, n: nat): (turns: seq<Turn>)
    ensures |turns| == n && forall k :: 0 <= k < n ==> turns[k] == turn(k)
  {
    seq(n, k requires 0 <= k < n => turn(k))
  }

  // One round of the sweep, after the rounds that made it what it is.
  lemma SweepNext(s: L.State, listing: seq<Entry>, k: nat, project: ProjectId, turns: seq<Turn>, indexing: bool,
                  sweep: Sweep)
    requires k < |listing| <= |turns| && sweep.completed
    requires SweepOver(s, listing[..k], project, turns, indexing) == sweep
    ensures
      var after := SweepOver(s, listing[..k + 1], project, turns, indexing);
      if listing[k].status != Active then after == sweep
      else
        var (s', result) := L.MutateStep(sweep.state, DeleteCall(listing[k].id, project, turns[k]), indexing);
        after == if result.Thrown? then Sweep(s', sweep.count, false)
                 else Sweep(s', sweep.count + (if result.applied then 1 else 0), true)
  {
    assert listing[..k + 1][..k] == listing[..k];
  }

  // A sweep that has thrown stays where it is.
  lemma {:induction false} StopsForGood(s: L.State, listing: seq<Entry>, k: nat, project: ProjectId, turns: seq<Turn>,
                                        indexing: bool)
    requires k <= |listing| <= |turns| && !SweepOver(s, listing[..k], project, turns, indexing).completed
    ensures SweepOver(s, listing, project, turns, indexing) == SweepOver(s, listing[..k], project, turns, indexing)
    decreases |listing|
  {
    if k == |listing| {
      assert listing[..k] == listing;
    } else {
      assert listing[..|listing| - 1][..k] == listing[..k];
      StopsForGood(s, listing[..|listing| - 1], k, project, turns, indexing);
    }
  }
}
