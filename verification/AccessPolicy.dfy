/**
 * The cross-project memory access policy: evaluation, node overrides, the context the retrieval
 * engine builds, and the filter it applies to results.
 */
module AccessPolicy {
  import opened Memory

  datatype AccessList = All | Nobody | Only(projects: seq<ProjectId>)
  datatype Policy = Policy(canReadFrom: AccessList, canBeReadBy: AccessList, inheritsGlobal: bool)
  datatype Override = Override(canReadFrom: Option<AccessList>, canBeReadBy: Option<AccessList>,
                               inheritsGlobal: Option<bool>)

  const DEFAULT_POLICY := Policy(All, All, true)

  datatype AccessAction = Read | Write | Retrieve
  datatype ControlState = Running | Paused | HardStopped | Resuming
  datatype Code =
    | Default | NodeOverride | InvalidOverride | CannotReadFrom | CannotBeReadBy | GlobalDenied | ControlStateBlocked
  datatype Verdict = Allowed(code: Code) | Refused(code: Code, target: Option<ProjectId>) | InvalidContext

  datatype Context = Context(
    action: AccessAction, from: ProjectId, target: Option<ProjectId>, targets: Option<seq<ProjectId>>,
    includeGlobal: bool,
    policy: Policy, targetPolicy: Option<Policy>, targetPolicies: Option<map<ProjectId, Policy>>,
    nodeOverride: Option<Override>, control: Option<ControlState>)

  predicate Includes(list: AccessList, id: ProjectId) {
    match list
    case All => true
    case Nobody => false
    case Only(projects) => id in projects
  }

  /******* Overrides *******/

  predicate ListNarrows(project: AccessList, override: AccessList) {
    match project
    case Nobody => override == Nobody
    case All => true
    case Only(projects) =>
      match override
      case All => false
      case Nobody => true
      case Only(chosen) => (forall id :: id in chosen ==> id in projects) && |chosen| <= |projects|
  }

  predicate Narrows(p: Policy, o: Override) {
    && (o.canReadFrom.Some? ==> ListNarrows(p.canReadFrom, o.canReadFrom.value))
    && (o.canBeReadBy.Some? ==> ListNarrows(p.canBeReadBy, o.canBeReadBy.value))
    && (o.inheritsGlobal == Some(true) ==> p.inheritsGlobal)
  }

  function Merge(p: Policy, o: Override): Policy {
    Policy(if o.canReadFrom.Some? then o.canReadFrom.value else p.canReadFrom,
           if o.canBeReadBy.Some? then o.canBeReadBy.value else p.canBeReadBy,
           if o.inheritsGlobal.Some? then o.inheritsGlobal.value else p.inheritsGlobal)
  }

  // An id no finite list of ids mentions.
  lemma {:induction false} SomeoneElse(ids: seq<ProjectId>) returns (id: ProjectId)
    ensures forall x :: x in ids ==> x < id
  {
    if ids == [] {
      id := 0;
    } else {
      var other := SomeoneElse(ids[1..]);
      id := if ids[0] < other then other else ids[0] + 1;
      assert forall x :: x in ids ==> x == ids[0] || x in ids[1..];
    }
  }

  // The syntactic comparison is sound, and it accepts every list that really grants less except two kinds: an
  // empty list where nobody is admitted anyway, and a list longer than the one it narrows.
  lemma NarrowsExactly(project: AccessList, override: AccessList)
    ensures ListNarrows(project, override) <==>
              && (forall id :: Includes(override, id) ==> Includes(project, id))
              && !(project == Nobody && override.Only?)
              && !(project.Only? && override.Only? && |override.projects| > |project.projects|)
  {
    if project.Only? && override == All {
      var id := SomeoneElse(project.projects);
      assert Includes(override, id) && !Includes(project, id);
    } else if project == Nobody && override == All {
      assert Includes(override, 0) && !Includes(project, 0);
    } else if project.Only? && override.Only? {
      assert forall id :: id in override.projects <==> Includes(override, id);
    }
  }

  // Narrowing is a preorder, so a chain of overrides keeps narrowing.
  lemma NarrowingIsPreorder(a: AccessList, b: AccessList, c: AccessList)
    ensures ListNarrows(a, a)
    ensures ListNarrows(a, b) && ListNarrows(b, c) ==> ListNarrows(a, c)
  {
  }

  // Applying one valid override after another is valid against the original policy, as a single override.
  lemma OverridesCompose(p: Policy, o1: Override, o2: Override)
    requires Narrows(p, o1) && Narrows(Merge(p, o1), o2)
    ensures var both := Override(if o2.canReadFrom.Some? then o2.canReadFrom else o1.canReadFrom,
                                 if o2.canBeReadBy.Some? then o2.canBeReadBy else o1.canBeReadBy,
                                 if o2.inheritsGlobal.Some? then o2.inheritsGlobal else o1.inheritsGlobal);
            Narrows(p, both) && Merge(p, both) == Merge(Merge(p, o1), o2)
  {
  }

  /******* Evaluation *******/

  function Targets(ctx: Context): seq<ProjectId> {
    if ctx.targets.Some? then ctx.targets.value else if ctx.target.Some? then [ctx.target.value] else []
  }

  function Policies(ctx: Context): map<ProjectId, Policy> {
    if ctx.targetPolicies.Some? then ctx.targetPolicies.value
    else if ctx.target.Some? && ctx.targetPolicy.Some? then map[ctx.target.value := ctx.targetPolicy.value]
    else map[]
  }

  predicate GlobalWrite(ctx: Context) {
    ctx.action == Write && ctx.includeGlobal && ctx.target.None?
  }

  predicate ValidContext(ctx: Context) {
    if ctx.action == Retrieve then
      || (ctx.target.Some? && ctx.targetPolicy.Some?)
      || (ctx.targets.Some? && ctx.targets.value != [] && ctx.targetPolicies.Some?)
      || ctx.includeGlobal
    else (GlobalWrite(ctx) && ctx.targetPolicy.None?) || (ctx.target.Some? && ctx.targetPolicy.Some?)
  }

  function Effective(ctx: Context): Policy {
    if ctx.nodeOverride.Some? then Merge(ctx.policy, ctx.nodeOverride.value) else ctx.policy
  }

  function Success(ctx: Context): Verdict {
    Allowed(if ctx.nodeOverride.Some? then NodeOverride else Default)
  }

  // Both sides of one access: None when it passes.
  function Objection(effective: Policy, from: ProjectId, target: ProjectId, targetPolicy: Policy): Option<Verdict> {
    if !Includes(effective.canReadFrom, target) then Some(Refused(CannotReadFrom, Some(target)))
    else if !Includes(targetPolicy.canBeReadBy, from) then Some(Refused(CannotBeReadBy, Some(target)))
    else None
  }

  // The loop over the targets; a target without a policy is passed over.
  function FirstObjection(effective: Policy, from: ProjectId, targets: seq<ProjectId>,
                          policies: map<ProjectId, Policy>): Option<Verdict> {
    if targets == [] then None
    else
      var rest := FirstObjection(effective, from, targets[1..], policies);
      if targets[0] !in policies then rest
      else
        var o := Objection(effective, from, targets[0], policies[targets[0]]);
        if o.Some? then o else rest
  }

  function Evaluate(ctx: Context): Verdict {
    if !ValidContext(ctx) then InvalidContext
    else if ctx.control == Some(HardStopped) then Refused(ControlStateBlocked, None)
    else if ctx.nodeOverride.Some? && !Narrows(ctx.policy, ctx.nodeOverride.value) then Refused(InvalidOverride, None)
    else
      var effective := Effective(ctx);
      match ctx.action
      case Retrieve =>
        var o := FirstObjection(effective, ctx.from, Targets(ctx), Policies(ctx));
        if o.Some? then o.value
        else if ctx.includeGlobal && !effective.inheritsGlobal then Refused(GlobalDenied, None)
        else Success(ctx)
      case _ =>
        if GlobalWrite(ctx) then if effective.inheritsGlobal then Success(ctx) else Refused(GlobalDenied, None)
        else
          var o := Objection(effective, ctx.from, ctx.target.value, ctx.targetPolicy.value);
          if o.Some? then o.value else Success(ctx)
  }

  ghost predicate PassesAll(effective: Policy, from: ProjectId, targets: seq<ProjectId>,
                            policies: map<ProjectId, Policy>) {
    forall t :: t in targets && t in policies ==>
      Includes(effective.canReadFrom, t) && Includes(policies[t].canBeReadBy, from)
  }

  lemma {:induction false} NoObjectionExactly(effective: Policy, from: ProjectId, targets: seq<ProjectId>,
                                              policies: map<ProjectId, Policy>)
    ensures FirstObjection(effective, from, targets, policies).None? <==> PassesAll(effective, from, targets, policies)
    ensures FirstObjection(effective, from, targets, policies).Some? ==>
            FirstObjection(effective, from, targets, policies).value.Refused?
  {
    if targets != [] {
      NoObjectionExactly(effective, from, targets[1..], policies);
      assert forall t :: t in targets <==> t == targets[0] || t in targets[1..];
    }
  }

  // A refused retrieval names the first target, in the order given, that does not pass; and the reading side is
  // blamed before the other project's.
  lemma {:induction false} RefusalNamesFirstTarget(effective: Policy, from: ProjectId, targets: seq<ProjectId>,
                                                   policies: map<ProjectId, Policy>)
    returns (k: nat)
    requires FirstObjection(effective, from, targets, policies).Some?
    ensures k < |targets| && targets[k] in policies
    ensures PassesAll(effective, from, targets[..k], policies)
    ensures FirstObjection(effective, from, targets, policies) == Some(
      Refused(if Includes(effective.canReadFrom, targets[k]) then CannotBeReadBy else CannotReadFrom, Some(targets[k])))
    ensures Includes(effective.canReadFrom, targets[k]) ==> !Includes(policies[targets[k]].canBeReadBy, from)
  {
    if targets[0] in policies && Objection(effective, from, targets[0], policies[targets[0]]).Some? {
      k := 0;
    } else {
      var j := RefusalNamesFirstTarget(effective, from, targets[1..], policies);
      k := j + 1;
      assert targets[..k] == [targets[0]] + targets[1..][..j];
    }
  }

  // The lists and the flag that decide: those of a node override where it gives them, else the project's own.
  function ReadsFrom(ctx: Context): AccessList {
    if ctx.nodeOverride.Some? && ctx.nodeOverride.value.canReadFrom.Some? then ctx.nodeOverride.value.canReadFrom.value
    else ctx.policy.canReadFrom
  }

  predicate Inherits(ctx: Context) {
    if ctx.nodeOverride.Some? && ctx.nodeOverride.value.inheritsGlobal.Some?
    then ctx.nodeOverride.value.inheritsGlobal.value else ctx.policy.inheritsGlobal
  }

  // An override that is given narrows every part of the project's policy that it speaks of.
  predicate OverrideHolds(ctx: Context) {
    ctx.nodeOverride.Some? ==>
      var o, p := ctx.nodeOverride.value, ctx.policy;
      && (o.canReadFrom.Some? ==> ListNarrows(p.canReadFrom, o.canReadFrom.value))
      && (o.canBeReadBy.Some? ==> ListNarrows(p.canBeReadBy, o.canBeReadBy.value))
      && (o.inheritsGlobal.Some? && o.inheritsGlobal.value ==> p.inheritsGlobal)
  }

  ghost predicate TargetsPass(ctx: Context) {
    forall t :: t in Targets(ctx) && t in Policies(ctx) ==>
      Includes(ReadsFrom(ctx), t) && Includes(Policies(ctx)[t].canBeReadBy, ctx.from)
  }

  // A context is incomplete when a retrieval names no target with its policy, no target in a list with policies, and
  // not the global entries; and when another access has no target with its policy, but for a write to the global
  // entries, which has neither.
  predicate Incomplete(ctx: Context) {
    match ctx.action
    case Retrieve =>
      && !ctx.includeGlobal && (ctx.target.None? || ctx.targetPolicy.None?)
      && (ctx.targets.None? || ctx.targets.value == [] || ctx.targetPolicies.None?)
    case Read => ctx.target.None? || ctx.targetPolicy.None?
    case Write =>
      if ctx.target.None? then !ctx.includeGlobal || ctx.targetPolicy.Some? else ctx.targetPolicy.None?
  }

  // What the engine grants, said without the order of its checks.
  ghost predicate Grants(ctx: Context)
    requires !Incomplete(ctx)
  {
    && ctx.control != Some(HardStopped) && OverrideHolds(ctx)
    && (if ctx.action == Retrieve then TargetsPass(ctx) && (ctx.includeGlobal ==> Inherits(ctx))
        else if ctx.target.None? then Inherits(ctx)
        else Includes(ReadsFrom(ctx), ctx.target.value) && Includes(ctx.targetPolicy.value.canBeReadBy, ctx.from))
  }

  lemma EvaluateExactly(ctx: Context)
    ensures Evaluate(ctx) == InvalidContext <==> Incomplete(ctx)
    ensures Evaluate(ctx).Allowed? <==> !Incomplete(ctx) && Grants(ctx)
    ensures Evaluate(ctx).Allowed? ==> Evaluate(ctx).code == if ctx.nodeOverride.Some? then NodeOverride else Default
  {
    NoObjectionExactly(Effective(ctx), ctx.from, Targets(ctx), Policies(ctx));
  }

  // Why a complete context is refused, in the order of the checks: a stop before a bad override, that before a target,
  // a target before the global rule.
  lemma RefusalExactly(ctx: Context)
    requires !Incomplete(ctx)
    ensures Evaluate(ctx) == Refused(ControlStateBlocked, None) <==> ctx.control == Some(HardStopped)
    ensures Evaluate(ctx) == Refused(InvalidOverride, None) <==> ctx.control != Some(HardStopped) && !OverrideHolds(ctx)
    ensures ctx.action == Retrieve ==>
              (Evaluate(ctx) == Refused(GlobalDenied, None) <==>
               && ctx.control != Some(HardStopped) && OverrideHolds(ctx) && TargetsPass(ctx)
               && ctx.includeGlobal && !Inherits(ctx))
  {
    NoObjectionExactly(Effective(ctx), ctx.from, Targets(ctx), Policies(ctx));
    if ctx.action == Retrieve && FirstObjection(Effective(ctx), ctx.from, Targets(ctx), Policies(ctx)).Some? {
      var k := RefusalNamesFirstTarget(Effective(ctx), ctx.from, Targets(ctx), Policies(ctx));
    }
  }

  // A node override only narrows: what is allowed with it is allowed without it, for every action.
  lemma OverrideOnlyNarrows(ctx: Context)
    requires Evaluate(ctx).Allowed?
    ensures Evaluate(ctx.(nodeOverride := None)).Allowed?
  {
    EvaluateExactly(ctx);
    EvaluateExactly(ctx.(nodeOverride := None));
    if ctx.nodeOverride.Some? && ctx.nodeOverride.value.canReadFrom.Some? {
      NarrowsExactly(ctx.policy.canReadFrom, ctx.nodeOverride.value.canReadFrom.value);
    }
  }

  // The order in which targets are named does not matter, nor does naming one twice.
  lemma TargetOrderIrrelevant(ctx: Context, targets: seq<ProjectId>)
    requires ctx.targets.Some? && forall t :: t in targets <==> t in ctx.targets.value
    ensures Evaluate(ctx).Allowed? <==> Evaluate(ctx.(targets := Some(targets))).Allowed?
  {
    EvaluateExactly(ctx);
    EvaluateExactly(ctx.(targets := Some(targets)));
    assert targets == [] <==> ctx.targets.value == [] by {
      assert targets != [] ==> targets[0] in targets;
      assert ctx.targets.value != [] ==> ctx.targets.value[0] in ctx.targets.value;
    }
  }

  predicate Named(ctx: Context, t: ProjectId) {
    ctx.target == Some(t) || (ctx.targets.Some? && t in ctx.targets.value)
  }

  ghost predicate Permits(ctx: Context, t: ProjectId) {
    Includes(ctx.policy.canReadFrom, t) && t in Policies(ctx) && Includes(Policies(ctx)[t].canBeReadBy, ctx.from)
  }

  // A retrieve context covers its targets when each named one is on the list and has a policy.
  ghost predicate Covers(ctx: Context) {
    forall t :: Named(ctx, t) ==> t in Targets(ctx) && t in Policies(ctx)
  }

  // For a context that covers its targets, retrieval is allowed exactly when every named target permits it and
  // the global rule is met.
  lemma CoveredRetrieveExactly(ctx: Context)
    requires ctx.action == Retrieve && ctx.nodeOverride.None? && ctx.control != Some(HardStopped) && ValidContext(ctx)
    requires Covers(ctx)
    ensures Evaluate(ctx).Allowed? <==>
            (forall t :: Named(ctx, t) ==> Permits(ctx, t)) && (ctx.includeGlobal ==> ctx.policy.inheritsGlobal)
  {
    EvaluateExactly(ctx);
    assert forall t :: t in Targets(ctx) ==> Named(ctx, t);
  }

  // The same request under other policies of the same projects.
  function WithPolicies(ctx: Context, own: Policy, others: map<ProjectId, Policy>): (r: Context)
    requires others.Keys == Policies(ctx).Keys
    ensures Policies(r) == others && Targets(r) == Targets(ctx) && (ValidContext(r) <==> ValidContext(ctx))
  {
    var c := ctx.(policy := own);
    if ctx.targetPolicies.Some? then c.(targetPolicies := Some(others))
    else if ctx.target.Some? && ctx.targetPolicy.Some? then
      assert ctx.target.value in others.Keys;
      c.(targetPolicy := Some(others[ctx.target.value]))
    else c
  }

  ghost predicate AllPermitted(ctx: Context) {
    forall t :: Named(ctx, t) ==> Permits(ctx, t)
  }

  // The evaluation looks at the listed targets that have a policy, and only at those. So an allowed retrieval means
  // that every named target permits it, whatever the policies say, exactly when the context covers its targets.
  lemma AccountsForAllExactly(ctx: Context)
    requires ctx.action == Retrieve && ctx.nodeOverride.None? && ctx.control != Some(HardStopped) && ValidContext(ctx)
    ensures Covers(ctx) <==>
              forall own: Policy, others: map<ProjectId, Policy> | others.Keys == Policies(ctx).Keys ::
                Evaluate(WithPolicies(ctx, own, others)).Allowed? ==> AllPermitted(WithPolicies(ctx, own, others))
  {
    hide Evaluate;
    if Covers(ctx) {
      forall own: Policy, others: map<ProjectId, Policy>
        | others.Keys == Policies(ctx).Keys && Evaluate(WithPolicies(ctx, own, others)).Allowed?
        ensures AllPermitted(WithPolicies(ctx, own, others))
      {
        CoveredRetrieveExactly(WithPolicies(ctx, own, others));
      }
    } else {
      var t :| Named(ctx, t) && !(t in Targets(ctx) && t in Policies(ctx));
      var others := map u | u in Policies(ctx) :: if u == t then Policy(All, Nobody, true) else DEFAULT_POLICY;
      var c := WithPolicies(ctx, DEFAULT_POLICY, others);
      EvaluateExactly(c);
      assert Evaluate(c).Allowed? && Named(c, t) && !Permits(c, t);
    }
  }

  // A second target that has no policy: the retrieval is allowed although the requesting project may not read it.
  lemma SecondTargetIsNotChecked() returns (ctx: Context, t: ProjectId)
    ensures ctx.action == Retrieve && ValidContext(ctx) && Named(ctx, t) && !Includes(ctx.policy.canReadFrom, t)
    ensures Evaluate(ctx).Allowed?
  {
    t := 2;
    ctx := Context(Retrieve, 0, None, Some([1, 2]), false, Policy(Only([1]), All, true), None,
                   Some(map[1 := DEFAULT_POLICY]), None, None);
    assert [1, 2][1] == 2;
    EvaluateExactly(ctx);
  }

  /******* The context built for a retrieval *******/

  datatype Query = Query(project: Option<ProjectId>, scope: Option<Scope>, targets: Option<seq<ProjectId>>,
                         filterProject: Option<ProjectId>)

  // A project's configuration: its policy, or None to take the default one.
  type Config = Option<Policy>

  function PolicyOf(config: Config): (p: Policy)
    ensures config.None? ==> forall id :: Includes(p.canReadFrom, id) && Includes(p.canBeReadBy, id)
    ensures config.None? ==> p.inheritsGlobal
  {
    if config.Some? then config.value else DEFAULT_POLICY
  }

  function PoliciesFor(targets: seq<ProjectId>, configs: map<ProjectId, Config>): Option<map<ProjectId, Policy>> {
    if targets == [] then Some(map[])
    else if targets[|targets| - 1] !in configs then None
    else
      var before := PoliciesFor(targets[..|targets| - 1], configs);
      if before.None? then None
      else Some(before.value[targets[|targets| - 1] := PolicyOf(configs[targets[|targets| - 1]])])
  }

  function BuildContext(q: Query, from: Option<Config>, configs: map<ProjectId, Config>,
                        control: Option<ControlState>): Option<Context> {
    if from.None? || q.project.None? then None
    else
      var policy, self := PolicyOf(from.value), q.project.value;
      var includeGlobal := q.scope != Some(Project);
      if q.targets.Some? && q.targets.value != [] then
        var policies := PoliciesFor(q.targets.value, configs);
        if policies.None? then None
        else Some(Context(Retrieve, self, None, q.targets, includeGlobal, policy, None, policies, None, control))
      else if q.filterProject.Some? && q.filterProject.value != self then
        if q.filterProject.value !in configs then None
        else Some(Context(Retrieve, self, q.filterProject, None, includeGlobal, policy,
                          Some(PolicyOf(configs[q.filterProject.value])), None, None, control))
      else if includeGlobal then
        Some(Context(Retrieve, self, None, Some([]), true, policy, None, Some(map[]), None, control))
      else
        Some(Context(Retrieve, self, Some(self), None, false, policy, Some(policy), None, None, control))
  }

  lemma {:induction false} PoliciesForExactly(targets: seq<ProjectId>, configs: map<ProjectId, Config>)
    ensures PoliciesFor(targets, configs).Some? <==> forall t :: t in targets ==> t in configs
    ensures PoliciesFor(targets, configs).Some? ==>
              var policies := PoliciesFor(targets, configs).value;
              && (forall t :: t in policies <==> t in targets)
              && (forall t :: t in targets ==> policies[t] == PolicyOf(configs[t]))
  {
    if targets != [] {
      var n := |targets| - 1;
      PoliciesForExactly(targets[..n], configs);
      assert targets == targets[..n] + [targets[n]];
    }
  }

  // The builder's contexts are valid and cover every target, whether it was named in a list or by a filter; they carry
  // the requesting project and its control state, and ask for global entries unless only project scope is asked for.
  lemma BuiltContextCovers(q: Query, from: Option<Config>, configs: map<ProjectId, Config>,
                           control: Option<ControlState>)
    requires BuildContext(q, from, configs, control).Some?
    ensures var ctx := BuildContext(q, from, configs, control).value;
            && ValidContext(ctx) && Covers(ctx) && ctx.nodeOverride.None? && ctx.policy == PolicyOf(from.value)
            && ctx.action == Retrieve && ctx.from == q.project.value && ctx.control == control
            && (ctx.includeGlobal <==> q.scope != Some(Project))
            && (forall t :: Named(ctx, t) && t != ctx.from ==> t in configs && Policies(ctx)[t] == PolicyOf(configs[t]))
  {
    if q.targets.Some? {
      PoliciesForExactly(q.targets.value, configs);
      assert q.targets.value != [] ==> q.targets.value[0] in q.targets.value;
    }
  }

  // A project's list admits the other and the other's list admits the project.
  predicate BothAdmit(from: ProjectId, policy: Policy, t: ProjectId, other: Policy) {
    Includes(policy.canReadFrom, t) && Includes(other.canBeReadBy, from)
  }

  // What a query needs of the projects it reaches: every listed target, or else the project it filters for, or else,
  // when global entries are not asked for, the own one.
  ghost predicate TargetsAdmit(q: Query, policy: Policy, configs: map<ProjectId, Config>)
    requires q.project.Some?
  {
    var from := q.project.value;
    if q.targets.Some? && q.targets.value != [] then
      forall t :: t in q.targets.value ==> t in configs && BothAdmit(from, policy, t, PolicyOf(configs[t]))
    else if q.filterProject.Some? && q.filterProject.value != from then
      var t := q.filterProject.value;
      t in configs && BothAdmit(from, policy, t, PolicyOf(configs[t]))
    else q.scope == Some(Project) ==> BothAdmit(from, policy, from, policy)
  }

  lemma TargetsAdmitExactly(q: Query, from: Option<Config>, configs: map<ProjectId, Config>,
                            control: Option<ControlState>)
    requires BuildContext(q, from, configs, control).Some?
    ensures var ctx := BuildContext(q, from, configs, control).value;
            && (TargetsPass(ctx) <==> TargetsAdmit(q, PolicyOf(from.value), configs)) && !Incomplete(ctx)
            && (ctx.includeGlobal <==> q.scope != Some(Project)) && ctx.control == control && ctx.nodeOverride.None?
            && ctx.action == Retrieve && ctx.policy == PolicyOf(from.value)
  {
    var ctx, self := BuildContext(q, from, configs, control).value, q.project.value;
    if q.targets.Some? && q.targets.value != [] {
      PoliciesForExactly(q.targets.value, configs);
      assert Targets(ctx) == q.targets.value;
      assert forall t :: t in q.targets.value ==> t in Policies(ctx) && Policies(ctx)[t] == PolicyOf(configs[t]);
    } else if q.filterProject.Some? && q.filterProject.value != self {
      assert Targets(ctx) == [q.filterProject.value];
      assert q.filterProject.value in Targets(ctx) && q.filterProject.value in Policies(ctx);
    } else if q.scope == Some(Project) {
      assert Targets(ctx) == [self] && Policies(ctx) == map[self := ctx.policy];
      assert self in Targets(ctx) && self in Policies(ctx);
    }
  }

  lemma BuildsExactly(q: Query, from: Option<Config>, configs: map<ProjectId, Config>, control: Option<ControlState>)
    ensures from.None? || q.project.None? ==> BuildContext(q, from, configs, control).None?
    ensures from.Some? && q.project.Some? && TargetsAdmit(q, PolicyOf(from.value), configs) ==>
              BuildContext(q, from, configs, control).Some?
  {
    if q.targets.Some? && q.targets.value != [] {
      PoliciesForExactly(q.targets.value, configs);
    }
  }

  // When a query passes the engine, from the query, the configurations and the control state alone: the requesting
  // project is configured and not stopped; if global entries are asked for, it inherits them; and the projects the
  // query reaches are configured, and they and the requesting project admit each other. For every kind of query.
  lemma QueryPassesExactly(q: Query, from: Option<Config>, configs: map<ProjectId, Config>,
                           control: Option<ControlState>)
    ensures BuildContext(q, from, configs, control).Some?
              && Evaluate(BuildContext(q, from, configs, control).value).Allowed? <==>
              && q.project.Some? && from.Some? && control != Some(HardStopped)
              && (q.scope == Some(Project) || PolicyOf(from.value).inheritsGlobal)
              && TargetsAdmit(q, PolicyOf(from.value), configs)
  {
    BuildsExactly(q, from, configs, control);
    if BuildContext(q, from, configs, control).Some? {
      TargetsAdmitExactly(q, from, configs, control);
      EvaluateExactly(BuildContext(q, from, configs, control).value);
    }
  }

  // For listed targets, of which neither order nor repetition matters, nor a filter beside them.
  lemma MultiTargetExactly(q: Query, from: Option<Config>, configs: map<ProjectId, Config>,
                           control: Option<ControlState>)
    requires BuildContext(q, from, configs, control).Some? && q.targets.Some? && q.targets.value != []
    ensures Evaluate(BuildContext(q, from, configs, control).value).Allowed? <==>
              && control != Some(HardStopped)
              && (forall t :: t in q.targets.value ==>
                    (t in configs && Includes(PolicyOf(from.value).canReadFrom, t)
                     && Includes(PolicyOf(configs[t]).canBeReadBy, q.project.value)))
              && (q.scope != Some(Project) ==> PolicyOf(from.value).inheritsGlobal)
  {
    QueryPassesExactly(q, from, configs, control);
  }

  /******* The filter on single results *******/  /******* The filter on single results *******/

  predicate ResultAllowed(entryProject: Option<ProjectId>, scope: Scope, from: ProjectId, policy: Policy,
                          targetPolicy: Option<Policy>) {
    if scope == Global then policy.inheritsGlobal
    else
      var target := if entryProject.Some? then entryProject.value else from;
      target == from
        || (targetPolicy.Some? && Includes(policy.canReadFrom, target)
            && Includes(targetPolicy.value.canBeReadBy, from))
  }

  function ReadContext(from: ProjectId, policy: Policy, target: ProjectId, targetPolicy: Option<Policy>): Context {
    Context(Read, from, Some(target), None, false, policy, targetPolicy, None, None, None)
  }

  function GlobalContext(from: ProjectId, policy: Policy): Context {
    Context(Retrieve, from, None, Some([]), true, policy, None, Some(map[]), None, None)
  }

  // The filter agrees with the engine: an entry of another project passes exactly when reading that project would
  // be allowed, and a global entry exactly when a global retrieval would.
  lemma FilterAgreesWithEngine(entryProject: Option<ProjectId>, scope: Scope, from: ProjectId, policy: Policy,
                               targetPolicy: Option<Policy>)
    ensures scope == Project && entryProject.Some? && entryProject.value != from ==>
              (ResultAllowed(entryProject, scope, from, policy, targetPolicy) <==>
               Evaluate(ReadContext(from, policy, entryProject.value, targetPolicy)).Allowed?)
    ensures scope == Global ==>
              (ResultAllowed(entryProject, scope, from, policy, targetPolicy) <==>
               Evaluate(GlobalContext(from, policy)).Allowed?)
  {
    if entryProject.Some? {
      EvaluateExactly(ReadContext(from, policy, entryProject.value, targetPolicy));
    }
    EvaluateExactly(GlobalContext(from, policy));
  }
}
