/**
 * The per-project refresh lock of the knowledge index: a promise chain held in a map.
 *
 * A call of refreshProjectKnowledge is cut at its awaits into steps that interleave freely with those of other
 * calls: issuing the run, starting its body, entering it in the in-flight map, settling, and cleaning up the lock.
 * A run is named by its position in the order of issue. Whether it settles well or with an error makes no
 * difference to the chain.
 */
module RefreshLock {
  import opened Memory

  datatype Phase = Waiting | Running | InFlight | Settled | Cleaned
  datatype RefreshRun = RefreshRun(project: ProjectId, previous: Option<nat>, phase: Phase)

  // started lists the runs whose body has been started, in that order.
  datatype State = State(runs: seq<RefreshRun>, locks: map<ProjectId, nat>, inFlight: set<ProjectId>, started: seq<nat>)

  datatype Event = Issue(project: ProjectId) | Start(r: nat) | Enter(r: nat) | Settle(r: nat) | Cleanup(r: nat)

  predicate Done(run: RefreshRun) {
    run.phase == Settled || run.phase == Cleaned
  }

  predicate Active(run: RefreshRun) {
    run.phase == Running || run.phase == InFlight
  }

  predicate Enabled(s: State, e: Event) {
    match e
    case Issue(_) => true
    case Start(r) => r < |s.runs| && s.runs[r].phase == Waiting
                     && (s.runs[r].previous.Some? ==>
                         s.runs[r].previous.value < |s.runs| && Done(s.runs[s.runs[r].previous.value]))
    case Enter(r) => r < |s.runs| && s.runs[r].phase == Running
    case Settle(r) => r < |s.runs| && Active(s.runs[r])
    case Cleanup(r) => r < |s.runs| && s.runs[r].phase == Settled
  }

  function SetPhase(s: State, r: nat, phase: Phase): seq<RefreshRun>
    requires r < |s.runs|
  {
    s.runs[r := s.runs[r].(phase := phase)]
  }

  function Next(s: State, e: Event): State
    requires Enabled(s, e)
  {
    match e
    case Issue(p) =>
      s.(runs := s.runs + [RefreshRun(p, if p in s.locks then Some(s.locks[p]) else None, Waiting)],
         locks := s.locks[p := |s.runs|])
    case Start(r) => s.(runs := SetPhase(s, r, Running), started := s.started + [r])
    case Enter(r) => s.(runs := SetPhase(s, r, InFlight), inFlight := s.inFlight + {s.runs[r].project})
    case Settle(r) =>
      s.(runs := SetPhase(s, r, Settled),
         inFlight := if s.runs[r].phase == InFlight then s.inFlight - {s.runs[r].project} else s.inFlight)
    case Cleanup(r) =>
      var p := s.runs[r].project;
      s.(runs := SetPhase(s, r, Cleaned), locks := if p in s.locks && s.locks[p] == r then s.locks - {p} else s.locks)
  }

  // The state after a schedule; None if one of its steps was not enabled.
  function After(s: State, schedule: seq<Event>): Option<State>
    decreases |schedule|
  {
    if schedule == [] then Some(s)
    else if !Enabled(s, schedule[0]) then None
    else After(Next(s, schedule[0]), schedule[1..])
  }

  // A schedule goes on with any step that is enabled where it has led.
  lemma {:induction false} ScheduleGoesOn(s: State, schedule: seq<Event>, e: Event)
    ensures After(s, []) == Some(s)
    ensures After(s, schedule + [e]) ==
            if After(s, schedule).Some? && Enabled(After(s, schedule).value, e)
            then Some(Next(After(s, schedule).value, e)) else None
    decreases |schedule|
  {
    var longer := schedule + [e];
    if schedule == [] {
      assert longer[1..] == [];
    } else if Enabled(s, schedule[0]) {
      ScheduleGoesOn(Next(s, schedule[0]), schedule[1..], e);
      assert longer[0] == schedule[0] && longer[1..] == schedule[1..] + [e];
    }
  }

  const INITIAL := State([], map[], {}, [])

  /******* What every reachable state satisfies *******/

  // All runs of project p issued before position n are done.
  ghost predicate DoneBefore(s: State, p: ProjectId, n: nat)
    requires n <= |s.runs|
  {
    forall i :: 0 <= i < n && s.runs[i].project == p ==> Done(s.runs[i])
  }

  // A run waits for the latest earlier run of its project; it waits for none only if all earlier ones are done.
  ghost predicate Chained(s: State, i: nat)
    requires i < |s.runs|
  {
    var run := s.runs[i];
    if run.previous.None? then DoneBefore(s, run.project, i)
    else
      var j := run.previous.value;
      j < i && s.runs[j].project == run.project && forall k :: j < k < i ==> s.runs[k].project != run.project
  }

  // The lock map holds the latest run of a project that is not cleaned up; a project without a key has only done runs.
  ghost predicate LocksCorrect(s: State) {
    && (forall p :: p in s.locks ==>
          s.locks[p] < |s.runs| && s.runs[s.locks[p]].project == p && s.runs[s.locks[p]].phase != Cleaned
          && forall k :: s.locks[p] < k < |s.runs| ==> s.runs[k].project != p)
    && (forall i :: 0 <= i < |s.runs| && s.runs[i].project !in s.locks ==> Done(s.runs[i]))
  }

  ghost predicate Fifo(s: State) {
    && (forall a :: 0 <= a < |s.started| ==> s.started[a] < |s.runs| && s.runs[s.started[a]].phase != Waiting)
    && (forall i :: 0 <= i < |s.runs| && s.runs[i].phase != Waiting ==> i in s.started)
    && (forall a, b :: 0 <= a < b < |s.started| ==> s.started[a] != s.started[b])
    && (forall a, b :: 0 <= a < b < |s.started| && s.runs[s.started[a]].project == s.runs[s.started[b]].project ==>
        s.started[a] < s.started[b])
  }

  ghost predicate Invariant(s: State) {
    && (forall i :: 0 <= i < |s.runs| ==> Chained(s, i))
    && (forall i :: 0 <= i < |s.runs| && s.runs[i].phase != Waiting ==> DoneBefore(s, s.runs[i].project, i))
    && LocksCorrect(s)
    && Fifo(s)
    && (forall p :: p in s.inFlight <==>
        exists i :: 0 <= i < |s.runs| && s.runs[i].project == p && s.runs[i].phase == InFlight)
  }

  // What Start finds: every earlier run of the project is done.
  lemma StartFindsAllDone(s: State, r: nat)
    requires Invariant(s) && Enabled(s, Start(r))
    ensures DoneBefore(s, s.runs[r].project, r)
  {
    assert Chained(s, r);
    if s.runs[r].previous.Some? {
      var j := s.runs[r].previous.value;
      assert DoneBefore(s, s.runs[j].project, j);
      forall i | 0 <= i < r && s.runs[i].project == s.runs[r].project ensures Done(s.runs[i]) {
        assert i <= j;
      }
    }
  }

  // A body may start as soon as every run of its project issued before it has settled, cleaned up or not, and no
  // sooner; other projects do not hold it up. A running body may settle at once, in flight or not.
  lemma StartsExactly(s: State, r: nat)
    requires Invariant(s) && r < |s.runs|
    ensures Enabled(s, Start(r)) <==>
              && s.runs[r].phase == Waiting
              && forall i :: 0 <= i < r && s.runs[i].project == s.runs[r].project ==>
                   s.runs[i].phase in {Settled, Cleaned}
    ensures Enabled(s, Settle(r)) <==> s.runs[r].phase in {Running, InFlight}
  {
    assert Chained(s, r);
    if Enabled(s, Start(r)) {
      StartFindsAllDone(s, r);
    }
  }

  // At most one body per project runs at a time.
  lemma MutualExclusion(s: State, i: nat, j: nat)
    requires Invariant(s) && i < |s.runs| && j < |s.runs| && i != j && s.runs[i].project == s.runs[j].project
    ensures !(Active(s.runs[i]) && Active(s.runs[j]))
  {
    assert Active(s.runs[i]) ==> DoneBefore(s, s.runs[i].project, i);
    assert Active(s.runs[j]) ==> DoneBefore(s, s.runs[j].project, j);
  }

  lemma IssueKeepsChains(s: State, p: ProjectId)
    requires Invariant(s)
    ensures var s' := Next(s, Issue(p));
            && (forall i :: 0 <= i < |s'.runs| ==> Chained(s', i))
            && (forall i :: 0 <= i < |s'.runs| && s'.runs[i].phase != Waiting ==> DoneBefore(s', s'.runs[i].project, i))
  {
    var s' := Next(s, Issue(p));
    forall i | 0 <= i < |s'.runs| ensures Chained(s', i) {
      assert i < |s.runs| ==> Chained(s, i);
    }
    forall i | 0 <= i < |s'.runs| && s'.runs[i].phase != Waiting ensures DoneBefore(s', s'.runs[i].project, i) {
      assert DoneBefore(s, s.runs[i].project, i);
    }
  }

  // One more waiting run at the end.
  ghost predicate Issued(s: State, s': State, p: ProjectId) {
    && |s'.runs| == |s.runs| + 1 && (forall i :: 0 <= i < |s.runs| ==> s'.runs[i] == s.runs[i])
    && s'.runs[|s.runs|].project == p && s'.runs[|s.runs|].phase == Waiting
    && s'.inFlight == s.inFlight && s'.started == s.started
  }

  lemma IssueKeepsInFlight(s: State, s': State, p: ProjectId)
    requires Issued(s, s', p)
    requires forall q :: q in s.inFlight <==>
             exists i :: 0 <= i < |s.runs| && s.runs[i].project == q && s.runs[i].phase == InFlight
    ensures forall q :: q in s'.inFlight <==>
            exists i :: 0 <= i < |s'.runs| && s'.runs[i].project == q && s'.runs[i].phase == InFlight
  {
    forall q
      ensures q in s'.inFlight <==>
              exists i :: 0 <= i < |s'.runs| && s'.runs[i].project == q && s'.runs[i].phase == InFlight
    {
      if q in s.inFlight {
        var i :| 0 <= i < |s.runs| && s.runs[i].project == q && s.runs[i].phase == InFlight;
        assert s'.runs[i] == s.runs[i];
      }
    }
  }

  lemma IssueKeepsLocks(s: State, s': State, p: ProjectId)
    requires LocksCorrect(s) && Issued(s, s', p) && s'.locks == s.locks[p := |s.runs|]
    ensures LocksCorrect(s')
  {
  }

  lemma IssueKeepsFifo(s: State, s': State, p: ProjectId)
    requires Fifo(s) && Issued(s, s', p)
    ensures Fifo(s')
  {
  }

  lemma IssueKeeps(s: State, p: ProjectId)
    requires Invariant(s)
    ensures Invariant(Next(s, Issue(p)))
  {
    var s' := Next(s, Issue(p));
    assert Issued(s, s', p);
    IssueKeepsChains(s, p);
    IssueKeepsInFlight(s, s', p);
    IssueKeepsLocks(s, s', p);
    IssueKeepsFifo(s, s', p);
  }

  // A change of phase of one run, by which done runs stay done.
  ghost predicate PhaseStep(s: State, s': State, r: nat) {
    && r < |s.runs| == |s'.runs| && s'.runs == s.runs[r := s.runs[r].(phase := s'.runs[r].phase)]
    && (Done(s.runs[r]) ==> Done(s'.runs[r]))
  }

  lemma PhaseStepKeepsChains(s: State, s': State, r: nat)
    requires Invariant(s) && PhaseStep(s, s', r)
    requires s'.runs[r].phase != Waiting && (s.runs[r].phase == Waiting ==> DoneBefore(s, s.runs[r].project, r))
    ensures forall i :: 0 <= i < |s'.runs| ==> Chained(s', i)
    ensures forall i :: 0 <= i < |s'.runs| && s'.runs[i].phase != Waiting ==> DoneBefore(s', s'.runs[i].project, i)
  {
    forall i | 0 <= i < |s'.runs| ensures Chained(s', i) {
      assert Chained(s, i);
    }
    forall i | 0 <= i < |s'.runs| && s'.runs[i].phase != Waiting ensures DoneBefore(s', s'.runs[i].project, i) {
      assert DoneBefore(s, s.runs[i].project, i);
    }
  }

  lemma InFlightAfter(s: State, s': State, r: nat)
    requires Invariant(s) && PhaseStep(s, s', r)
    requires s'.inFlight == if s'.runs[r].phase == InFlight then s.inFlight + {s.runs[r].project}
                            else if s.runs[r].phase == InFlight then s.inFlight - {s.runs[r].project} else s.inFlight
    ensures forall p :: p in s'.inFlight <==>
            exists i :: 0 <= i < |s'.runs| && s'.runs[i].project == p && s'.runs[i].phase == InFlight
  {
    forall p
      ensures p in s'.inFlight <==>
              exists i :: 0 <= i < |s'.runs| && s'.runs[i].project == p && s'.runs[i].phase == InFlight
    {
      if exists i :: 0 <= i < |s'.runs| && s'.runs[i].project == p && s'.runs[i].phase == InFlight {
        var i :| 0 <= i < |s'.runs| && s'.runs[i].project == p && s'.runs[i].phase == InFlight;
        if i != r {
          assert s.runs[i] == s'.runs[i];
          if p == s.runs[r].project {
            MutualExclusion(s, i, r);
          }
        }
      }
      if p in s'.inFlight && p in s.inFlight {
        var i :| 0 <= i < |s.runs| && s.runs[i].project == p && s.runs[i].phase == InFlight;
        assert i != r ==> s'.runs[i] == s.runs[i];
      } else if p in s'.inFlight {
        assert s'.runs[r].project == p;
      }
    }
  }

  lemma StartedEarlier(s: State, r: nat)
    requires Invariant(s) && Enabled(s, Start(r))
    ensures forall a :: 0 <= a < |s.started| ==>
              s.started[a] != r && (s.runs[s.started[a]].project == s.runs[r].project ==> s.started[a] < r)
  {
    forall a | 0 <= a < |s.started| && s.runs[s.started[a]].project == s.runs[r].project && s.started[a] != r
      ensures s.started[a] < r
    {
      assert DoneBefore(s, s.runs[s.started[a]].project, s.started[a]);
    }
  }

  lemma FifoGrows(s: State, s': State, r: nat)
    requires Fifo(s) && PhaseStep(s, s', r) && s'.runs[r].phase != Waiting && s'.started == s.started + [r]
    requires forall a :: 0 <= a < |s.started| ==>
               s.started[a] != r && (s.runs[s.started[a]].project == s.runs[r].project ==> s.started[a] < r)
    ensures Fifo(s')
  {
    forall i | 0 <= i < |s'.runs| && s'.runs[i].phase != Waiting ensures i in s'.started {
      assert s'.started[|s.started|] == r;
      assert i != r ==> i in s.started;
    }
  }

  lemma StartKeeps(s: State, r: nat)
    requires Invariant(s) && Enabled(s, Start(r))
    ensures Invariant(Next(s, Start(r)))
  {
    var s' := Next(s, Start(r));
    StartFindsAllDone(s, r);
    PhaseStepKeepsChains(s, s', r);
    InFlightAfter(s, s', r);
    StartedEarlier(s, r);
    FifoGrows(s, s', r);
    LocksStay(s, s', r);
  }

  lemma FifoStays(s: State, s': State, r: nat)
    requires Fifo(s) && PhaseStep(s, s', r) && s'.started == s.started
    requires s.runs[r].phase != Waiting && s'.runs[r].phase != Waiting
    ensures Fifo(s')
  {
    forall i | 0 <= i < |s'.runs| && s'.runs[i].phase != Waiting ensures i in s'.started {
      assert s.runs[i].phase != Waiting;
    }
  }

  lemma LocksStay(s: State, s': State, r: nat)
    requires LocksCorrect(s) && PhaseStep(s, s', r) && s'.locks == s.locks && s'.runs[r].phase != Cleaned
    ensures LocksCorrect(s')
  {
  }

  lemma EnterKeeps(s: State, r: nat)
    requires Invariant(s) && Enabled(s, Enter(r))
    ensures Invariant(Next(s, Enter(r)))
  {
    var s' := Next(s, Enter(r));
    PhaseStepKeepsChains(s, s', r);
    InFlightAfter(s, s', r);
    FifoStays(s, s', r);
    LocksStay(s, s', r);
  }

  lemma SettleKeeps(s: State, r: nat)
    requires Invariant(s) && Enabled(s, Settle(r))
    ensures Invariant(Next(s, Settle(r)))
  {
    var s' := Next(s, Settle(r));
    PhaseStepKeepsChains(s, s', r);
    InFlightAfter(s, s', r);
    FifoStays(s, s', r);
    LocksStay(s, s', r);
  }

  lemma LocksAfterCleanup(s: State, s': State, r: nat)
    requires LocksCorrect(s) && PhaseStep(s, s', r) && s.runs[r].phase == Settled && s'.runs[r].phase == Cleaned
    requires var p := s.runs[r].project;
             s'.locks == if p in s.locks && s.locks[p] == r then s.locks - {p} else s.locks
    requires DoneBefore(s, s.runs[r].project, r)
    ensures LocksCorrect(s')
  {
  }

  lemma CleanupKeeps(s: State, r: nat)
    requires Invariant(s) && Enabled(s, Cleanup(r))
    ensures Invariant(Next(s, Cleanup(r)))
  {
    var s' := Next(s, Cleanup(r));
    PhaseStepKeepsChains(s, s', r);
    InFlightAfter(s, s', r);
    FifoStays(s, s', r);
    LocksAfterCleanup(s, s', r);
  }

  lemma StepKeepsInvariant(s: State, e: Event)
    requires Invariant(s) && Enabled(s, e)
    ensures Invariant(Next(s, e))
  {
    match e
    case Issue(p) => IssueKeeps(s, p);
    case Start(r) => StartKeeps(s, r);
    case Enter(r) => EnterKeeps(s, r);
    case Settle(r) => SettleKeeps(s, r);
    case Cleanup(r) => CleanupKeeps(s, r);
  }

  // Every schedule of steps from the start keeps the invariant: runs of one project exclude each other and start in
  // order of issue, once each, and the lock map is right.
  lemma {:induction false} EverySchedule(s: State, schedule: seq<Event>)
    requires Invariant(s) && After(s, schedule).Some?
    ensures Invariant(After(s, schedule).value)
    decreases |schedule|
  {
    if schedule != [] {
      StepKeepsInvariant(s, schedule[0]);
      EverySchedule(Next(s, schedule[0]), schedule[1..]);
    }
  }

  // From the empty maps, under any interleaving: two runs of one project never run at once, the bodies of a project
  // start in order of issue, each once, and a project without a lock has only settled runs.
  lemma SafeFromTheStart(schedule: seq<Event>, i: nat, j: nat)
    requires After(INITIAL, schedule).Some?
    requires i < j < |After(INITIAL, schedule).value.runs|
    requires After(INITIAL, schedule).value.runs[i].project == After(INITIAL, schedule).value.runs[j].project
    ensures
      var s := After(INITIAL, schedule).value;
      && !(Active(s.runs[i]) && Active(s.runs[j]))
      && (s.runs[j].phase != Waiting ==> Done(s.runs[i]))
      && (forall a, b :: 0 <= a < |s.started| && 0 <= b < |s.started| && s.started[a] == i && s.started[b] == j ==>
          a < b)
      && (s.runs[i].project !in s.locks ==> Done(s.runs[i]) && Done(s.runs[j]))
      && (s.runs[i].project in s.locks ==> s.locks[s.runs[i].project] >= j)
  {
    EverySchedule(INITIAL, schedule);
    var s := After(INITIAL, schedule).value;
    MutualExclusion(s, i, j);
    assert s.runs[j].phase != Waiting ==> DoneBefore(s, s.runs[j].project, j);
  }

  /******* Progress *******/

  function Remaining(phase: Phase): nat {
    match phase
    case Waiting => 4
    case Running => 3
    case InFlight => 2
    case Settled => 1
    case Cleaned => 0
  }

  function Work(runs: seq<RefreshRun>): nat {
    if runs == [] then 0 else Work(runs[..|runs| - 1]) + Remaining(runs[|runs| - 1].phase)
  }

  lemma {:induction false} WorkDrops(runs: seq<RefreshRun>, r: nat, phase: Phase)
    requires r < |runs| && Remaining(phase) < Remaining(runs[r].phase)
    ensures Work(runs[r := runs[r].(phase := phase)]) < Work(runs)
  {
    var n := |runs| - 1;
    var runs' := runs[r := runs[r].(phase := phase)];
    if r < n {
      WorkDrops(runs[..n], r, phase);
      assert runs'[..n] == runs[..n][r := runs[r].(phase := phase)];
    } else {
      assert runs'[..n] == runs[..n];
    }
  }

  // Without new calls the steps run out.
  lemma StepsRunOut(s: State, e: Event)
    requires Enabled(s, e) && !e.Issue?
    ensures Work(Next(s, e).runs) < Work(s.runs)
  {
    WorkDrops(s.runs, e.r, Next(s, e).runs[e.r].phase);
  }

  lemma {:induction false} SomethingIsEnabled(s: State, i: nat) returns (e: Event)
    requires Invariant(s) && i < |s.runs| && s.runs[i].phase != Cleaned
    ensures Enabled(s, e) && !e.Issue?
    decreases i
  {
    match s.runs[i].phase
    case Running => e := Enter(i);
    case InFlight => e := Settle(i);
    case Settled => e := Cleanup(i);
    case Waiting =>
      assert Chained(s, i);
      if s.runs[i].previous.None? || Done(s.runs[s.runs[i].previous.value]) {
        e := Start(i);
      } else {
        e := SomethingIsEnabled(s, s.runs[i].previous.value);
      }
  }

  // No deadlock and no leaked lock: when nothing but a new call can happen, every issued run has been started exactly
  // once and cleaned up, and both maps are empty.
  lemma QuietMeansClean(s: State)
    requires Invariant(s) && forall e: Event :: Enabled(s, e) ==> e.Issue?
    ensures forall i :: 0 <= i < |s.runs| ==> s.runs[i].phase == Cleaned && i in s.started
    ensures |s.started| == |s.runs| && s.locks == map[] && s.inFlight == {}
  {
    forall i | 0 <= i < |s.runs| ensures s.runs[i].phase == Cleaned {
      if s.runs[i].phase != Cleaned {
        var e := SomethingIsEnabled(s, i);
      }
    }
    assert s.locks.Keys == {};
    AllOnce(s.started, |s.runs|);
  }

  function Below(n: nat): (r: set<nat>)
    ensures |r| == n && forall x: nat :: x in r <==> x < n
  {
    if n == 0 then {} else Below(n - 1) + {n - 1}
  }

  function Elements(xs: seq<nat>): (r: set<nat>)
    ensures forall x :: x in r <==> x in xs
  {
    if xs == [] then {}
    else
      assert xs == xs[..|xs| - 1] + [xs[|xs| - 1]];
      Elements(xs[..|xs| - 1]) + {xs[|xs| - 1]}
  }

  lemma {:induction false} CountDistinct(xs: seq<nat>)
    requires forall a, b :: 0 <= a < b < |xs| ==> xs[a] != xs[b]
    ensures |Elements(xs)| == |xs|
  {
    if xs != [] {
      CountDistinct(xs[..|xs| - 1]);
      assert xs[|xs| - 1] !in xs[..|xs| - 1];
    }
  }

  lemma AllOnce(xs: seq<nat>, n: nat)
    requires forall a, b :: 0 <= a < b < |xs| ==> xs[a] != xs[b]
    requires forall i :: 0 <= i < n ==> i in xs
    requires forall x :: x in xs ==> x < n
    ensures |xs| == n
  {
    CountDistinct(xs);
    assert Elements(xs) == Below(n);
  }

  /******* The runtime's maps *******/

  class KnowledgeIndexRuntime {
    var runs: seq<RefreshRun>  // the promises, by order of issue
    var refreshLocks: map<ProjectId, nat>
    var refreshInFlight: set<ProjectId>
    ghost var started: seq<nat>

    constructor ()
      ensures Now() == INITIAL
    {
      runs, refreshLocks, refreshInFlight, started := [], map[], {}, [];
    }

    ghost function Now(): State
      reads this
    {
      State(runs, refreshLocks, refreshInFlight, started)
    }

    // The synchronous part of a call: chain a new run behind the one in the map and put it there.
    method RefreshProjectKnowledge(project: ProjectId) returns (run: nat)
      modifies this
      ensures run == |old(runs)| && Now() == Next(old(Now()), Issue(project))
    {
      var previous := if project in refreshLocks then Some(refreshLocks[project]) else None;
      run := |runs|;
      runs := runs + [RefreshRun(project, previous, Waiting)];
      refreshLocks := refreshLocks[project := run];
    }

    // The chain calls the body once the previous run has settled, well or not.
    method StartBody(r: nat)
      requires Enabled(Now(), Start(r))
      modifies this
      ensures Now() == Next(old(Now()), Start(r))
    {
      runs := runs[r := runs[r].(phase := Running)];
      started := started + [r];
    }

    method EnterInFlight(r: nat)
      requires Enabled(Now(), Enter(r))
      modifies this
      ensures Now() == Next(old(Now()), Enter(r))
    {
      refreshInFlight := refreshInFlight + {runs[r].project};
      runs := runs[r := runs[r].(phase := InFlight)];
    }

    // A body that fails before it is in flight leaves the in-flight map alone.
    method SettleRun(r: nat)
      requires Enabled(Now(), Settle(r))
      modifies this
      ensures Now() == Next(old(Now()), Settle(r))
    {
      if runs[r].phase == InFlight {
        refreshInFlight := refreshInFlight - {runs[r].project};
      }
      runs := runs[r := runs[r].(phase := Settled)];
    }

    method CleanUp(r: nat)
      requires Enabled(Now(), Cleanup(r))
      modifies this
      ensures Now() == Next(old(Now()), Cleanup(r))
    {
      var project := runs[r].project;
      if project in refreshLocks && refreshLocks[project] == r {
        refreshLocks := refreshLocks - {project};
      }
      runs := runs[r := runs[r].(phase := Cleaned)];
    }
  }
}
