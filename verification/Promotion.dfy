/**
 * When a cluster of experience records may be promoted to a distilled pattern: signal analysis,
 * initial confidence and the promotion guard. Confidence is computed over the reals.
 */
module Promotion {
  import opened Memory

  const DAY_MS: int := 24 * 60 * 60 * 1000

  datatype SignalConfig = SignalConfig(agingDays: nat, staleDays: nat, dominance: real, evidenceRefLimit: nat) {
    predicate Valid() {
      1 <= agingDays < staleDays && 0.5 <= dominance <= 1.0 && 1 <= evidenceRefLimit <= 10
    }
  }

  // The settings reach the engine unparsed, so any numbers are possible; Valid is what their schema asks for.
  datatype Lifecycle = Lifecycle(minSignals: real, highThreshold: real, highMinSignals: real, mediumMinSignals: real,
                                 retirementThreshold: real) {
    predicate Valid() {
      && 3.0 <= minSignals && 0.9 <= highThreshold <= 1.0 && 15.0 <= highMinSignals && 5.0 <= mediumMinSignals
      && 0.0 <= retirementThreshold <= 0.5
    }
  }

  datatype Class = Positive | Negative | NeutralClass
  datatype Contradiction = NoContradiction | Detected | Blocking
  datatype Staleness = Fresh | Aging | Stale
  datatype Tier = High | Medium | Low
  datatype Decision = Promote | Hold | Reject
  datatype ReasonCode = ConfLow | ConfContradiction | ConfStaleness | ConfRetirement
  datatype ValidationError = MissingBasedOn | MissingSourceTraceIds | MissingEvidenceRefs

  datatype Analysis = Analysis(
    basedOn: seq<EntryId>, sourceTraceIds: set<nat>, count: nat, positive: nat, negative: nat, neutral: nat,
    contradiction: Contradiction, staleness: Staleness, latestAgeDays: nat, evidenceRefs: nat)

  function ClassOf(s: Sentiment): Class {
    match s
    case StrongPositive => Positive
    case WeakPositive => Positive
    case StrongNegative => Negative
    case WeakNegative => Negative
    case Neutral => NeutralClass
  }

  function CountClass(records: seq<Entry>, c: Class): (n: nat)
    ensures n <= |records|
  {
    if records == [] then 0
    else
      var n := |records| - 1;
      CountClass(records[..n], c) + (if ClassOf(records[n].sentiment) == c then 1 else 0)
  }

  // How many of the records carry one of these sentiments.
  ghost function Tally(records: seq<Entry>, among: set<Sentiment>): nat {
    |set i | 0 <= i < |records| && records[i].sentiment in among|
  }

  lemma TallyOneMore(records: seq<Entry>, among: set<Sentiment>)
    requires records != []
    ensures var n := |records| - 1;
            Tally(records, among) == Tally(records[..n], among) + (if records[n].sentiment in among then 1 else 0)
  {
    var n := |records| - 1;
    var counted := set i | 0 <= i < n && records[..n][i].sentiment in among;
    assert (set i | 0 <= i < |records| && records[i].sentiment in among) ==
           counted + if records[n].sentiment in among then {n} else {};
  }

  // What the three classes are: both strengths of either sign, and neutral.
  lemma {:induction false} ClassesTallied(records: seq<Entry>)
    ensures CountClass(records, Positive) == Tally(records, {StrongPositive, WeakPositive})
    ensures CountClass(records, Negative) == Tally(records, {StrongNegative, WeakNegative})
    ensures CountClass(records, NeutralClass) == Tally(records, {Neutral})
  {
    if records != [] {
      ClassesTallied(records[..|records| - 1]);
      TallyOneMore(records, {StrongPositive, WeakPositive});
      TallyOneMore(records, {StrongNegative, WeakNegative});
      TallyOneMore(records, {Neutral});
    }
  }

  lemma TallyIsZero(records: seq<Entry>, among: set<Sentiment>)
    ensures Tally(records, among) == 0 <==> forall r :: r in records ==> r.sentiment !in among
  {
    var counted := set i | 0 <= i < |records| && records[i].sentiment in among;
    if counted == {} {
      forall r | r in records ensures r.sentiment !in among {
        var i :| 0 <= i < |records| && records[i] == r;
        assert i !in counted;
      }
    } else {
      var i :| i in counted;
      assert records[i] in records;
    }
  }

  function Latest(records: seq<Entry>): Time
    requires records != []
  {
    if |records| == 1 then records[0].updatedAt
    else
      var rest := Latest(records[1..]);
      if records[0].updatedAt >= rest then records[0].updatedAt else rest
  }

  lemma {:induction false} LatestIsLatest(records: seq<Entry>)
    requires records != []
    ensures exists r :: r in records && r.updatedAt == Latest(records)
    ensures forall r :: r in records ==> r.updatedAt <= Latest(records)
  {
    assert records[0] in records;
    if |records| > 1 {
      LatestIsLatest(records[1..]);
      assert forall r :: r in records[1..] ==> r in records;
      assert records == [records[0]] + records[1..];
    }
  }

  function AgeDays(latest: Time, now: Time): nat {
    var days := (now - latest) / DAY_MS;
    if days < 0 then 0 else days
  }

  function ContradictionOf(positive: nat, negative: nat, config: SignalConfig): Contradiction {
    if positive == 0 || negative == 0 then NoContradiction
    else
      var dominant := if positive >= negative then positive else negative;
      if dominant as real / (positive + negative) as real < config.dominance then Blocking else Detected
  }

  function StalenessOf(age: nat, config: SignalConfig): Staleness {
    if age >= config.staleDays then Stale else if age >= config.agingDays then Aging else Fresh
  }

  function TraceIds(records: seq<Entry>): set<nat> {
    if records == [] then {} else {records[0].traceId} + TraceIds(records[1..])
  }

  function Analyze(records: seq<Entry>, now: Time, config: SignalConfig): Analysis
    requires records != []
  {
    var positive, negative := CountClass(records, Positive), CountClass(records, Negative);
    ClassesAddUp(records);
    var age := AgeDays(Latest(records), now);
    var traces := TraceIds(records);
    var refs := if |traces| < config.evidenceRefLimit then |traces| else config.evidenceRefLimit;
    Analysis(Ids(records), traces, |records|, positive, negative, |records| - positive - negative,
             ContradictionOf(positive, negative, config), StalenessOf(age, config), age, if refs < 1 then 1 else refs)
  }

  lemma ClassesAddUp(records: seq<Entry>)
    ensures CountClass(records, Positive) + CountClass(records, Negative) + CountClass(records, NeutralClass) ==
            |records|
  {
  }

  /******* Confidence *******/

  function Min(a: real, b: real): real { if a <= b then a else b }
  function Max(a: real, b: real): real { if a >= b then a else b }
  function MaxNat(a: nat, b: nat): nat { if a >= b then a else b }

  function RoundConfidence(value: real): real {
    (Min(1.0, Max(0.0, value)) * 100.0 + 0.5).Floor as real / 100.0
  }

  // The size of the largest outcome class.
  function Aligned(records: seq<Entry>): nat {
    MaxNat(CountClass(records, Positive), MaxNat(CountClass(records, Negative), CountClass(records, NeutralClass)))
  }

  // Dividing by zero gives infinity, which the minimum caps.
  function VolumeFactor(count: nat, highMinSignals: real): real
    requires count > 0
  {
    Min(1.0, if highMinSignals == 0.0 then 1.0 else count as real / highMinSignals)
  }

  function RawConfidence(aligned: nat, count: nat, highMinSignals: real): real
    requires count > 0
  {
    (aligned as real / count as real) * VolumeFactor(count, highMinSignals)
  }

  function Confidence(records: seq<Entry>, config: Lifecycle): real
    requires records != []
  {
    if |records| as real < config.minSignals then 0.0
    else RoundConfidence(RawConfidence(Aligned(records), |records|, config.highMinSignals))
  }

  // The counting loop: outcome classes are tallied into a map.
  method TallyClasses(records: seq<Entry>) returns (counts: map<Class, nat>)
    ensures forall c :: CountClass(records, c) == if c in counts then counts[c] else 0
  {
    counts := map[];
    assert records[..0] == [];
    for n := 0 to |records|
      invariant forall c :: CountClass(records[..n], c) == if c in counts then counts[c] else 0
    {
      var c := ClassOf(records[n].sentiment);
      assert records[..n + 1][..n] == records[..n];
      counts := counts[c := (if c in counts then counts[c] else 0) + 1];
    }
    assert records[..|records|] == records;
  }

  function CountIn(counts: map<Class, nat>, c: Class): nat {
    if c in counts then counts[c] else 0
  }

  method ComputeInitialConfidence(records: seq<Entry>, config: Lifecycle) returns (confidence: real)
    requires records != []
    ensures confidence == Confidence(records, config) && Measures(confidence, records, config)
  {
    ConfidenceMeasures(records, config);
    if |records| as real < config.minSignals {
      return 0.0;
    }
    var counts := TallyClasses(records);
    var maxCount := MaxNat(CountIn(counts, Positive), MaxNat(CountIn(counts, Negative), CountIn(counts, NeutralClass)));
    assert maxCount == Aligned(records);
    var baseConsistency := maxCount as real / |records| as real;
    var volumeFactor :=
      Min(1.0, if config.highMinSignals == 0.0 then 1.0 else |records| as real / config.highMinSignals);
    var raw := baseConsistency * volumeFactor;
    assert raw == RawConfidence(Aligned(records), |records|, config.highMinSignals);
    confidence := RoundConfidence(raw);
  }

  /******* The guard *******/

  function TierOf(confidence: real, signals: nat, config: Lifecycle): Tier {
    if confidence >= config.highThreshold && signals as real >= config.highMinSignals then High
    else if confidence >= 0.6 && signals as real >= config.mediumMinSignals then Medium
    else Low
  }

  // Reason codes accumulate in a set and errors in a list; the decision is taken by branches.
  method EvaluateProductionPromotion(confidence: real, basedOn: seq<EntryId>, evidenceRefs: nat, analysis: Analysis,
                                     config: Lifecycle)
    returns (decision: Decision, reasonCodes: set<ReasonCode>, errors: seq<ValidationError>)
    ensures decision == Guard(confidence, basedOn, evidenceRefs, analysis, config)
    ensures reasonCodes != {}
    ensures decision == Promote ==> reasonCodes == {ConfLow} && errors == []
    ensures decision == Hold ==> errors == []
    ensures MissingBasedOn in errors <==> basedOn == []
    ensures MissingSourceTraceIds in errors <==> analysis.sourceTraceIds == {}
    ensures MissingEvidenceRefs in errors <==> evidenceRefs == 0
    ensures ConfRetirement in reasonCodes <==> confidence < config.retirementThreshold
    ensures ConfLow in reasonCodes <==>
              || !Confident(confidence, analysis.count, config) || analysis.count as real < config.mediumMinSignals
              || reasonCodes == {ConfLow}
    ensures forall i, j :: 0 <= i < j < |errors| ==> errors[i] != errors[j]
    ensures ConfStaleness in reasonCodes <==> analysis.staleness != Fresh
    ensures ConfContradiction in reasonCodes <==> analysis.contradiction != NoContradiction
  {
    errors := [];
    if basedOn == [] { errors := errors + [MissingBasedOn]; }
    if analysis.sourceTraceIds == {} { errors := errors + [MissingSourceTraceIds]; }
    if evidenceRefs == 0 { errors := errors + [MissingEvidenceRefs]; }

    var flagged := confidence < config.retirementThreshold;
    var tier := TierOf(confidence, analysis.count, config);
    reasonCodes := {};
    if tier == Low || analysis.count as real < config.mediumMinSignals { reasonCodes := reasonCodes + {ConfLow}; }
    if analysis.contradiction != NoContradiction { reasonCodes := reasonCodes + {ConfContradiction}; }
    if analysis.staleness != Fresh { reasonCodes := reasonCodes + {ConfStaleness}; }
    if flagged { reasonCodes := reasonCodes + {ConfRetirement}; }

    if errors != [] || analysis.contradiction == Blocking {
      decision := Reject;
    } else if flagged || analysis.contradiction == Detected || analysis.staleness != Fresh || tier == Low
              || analysis.count as real < config.mediumMinSignals {
      decision := Hold;
    } else {
      decision := Promote;
    }
    if reasonCodes == {} {
      reasonCodes := {ConfLow};
    }
  }

  // Confident enough for a tier above the lowest.
  predicate Confident(confidence: real, signals: nat, config: Lifecycle) {
    || (confidence >= config.highThreshold && signals as real >= config.highMinSignals)
    || (confidence >= 0.6 && signals as real >= config.mediumMinSignals)
  }

  // The verdict in terms of what was measured, without tiers or flags.
  function Guard(confidence: real, basedOn: seq<EntryId>, evidenceRefs: nat, analysis: Analysis,
                 config: Lifecycle): Decision {
    if basedOn == [] || analysis.sourceTraceIds == {} || evidenceRefs == 0 || analysis.contradiction == Blocking
      then Reject
    else if Confident(confidence, analysis.count, config) && analysis.count as real >= config.mediumMinSignals
         && confidence >= config.retirementThreshold
         && analysis.contradiction == NoContradiction && analysis.staleness == Fresh then Promote
    else Hold
  }

  // The decision on a cluster at a given moment.
  function Decide(records: seq<Entry>, now: Time, signals: SignalConfig, config: Lifecycle): Decision
    requires records != []
  {
    var analysis := Analyze(records, now, signals);
    Guard(Confidence(records, config), analysis.basedOn, analysis.evidenceRefs, analysis, config)
  }

  // Waiting never helps: what is not promoted now is not promoted at any later moment.
  lemma DecisionIsMonotone(records: seq<Entry>, now: Time, later: Time, signals: SignalConfig, config: Lifecycle)
    requires records != [] && signals.Valid() && now <= later
    requires Decide(records, later, signals, config) == Promote
    ensures Decide(records, now, signals, config) == Promote
  {
    AgeGrows(Latest(records), now, later);
  }

  lemma AgeGrows(latest: Time, now: Time, later: Time)
    requires now <= later
    ensures AgeDays(latest, now) <= AgeDays(latest, later)
  {
  }

  lemma RoundingThreshold(x: real)
    ensures RoundConfidence(x) >= 0.6 <==> x >= 0.595
  {
    var y := Min(1.0, Max(0.0, x)) * 100.0 + 0.5;
    assert y.Floor >= 60 <==> y >= 60.0;
  }

  lemma NothingMissing(records: seq<Entry>, now: Time, signals: SignalConfig)
    requires records != [] && signals.Valid()
    ensures var a := Analyze(records, now, signals); a.basedOn != [] && a.sourceTraceIds != {} && a.evidenceRefs > 0
  {
    assert records[0].traceId in TraceIds(records);
  }

  lemma GuardExactly(c: real, a: Analysis, config: Lifecycle)
    requires a.basedOn != [] && a.sourceTraceIds != {} && a.evidenceRefs > 0
    ensures Guard(c, a.basedOn, a.evidenceRefs, a, config) == Promote <==>
              && Confident(c, a.count, config) && a.count as real >= config.mediumMinSignals
              && c >= config.retirementThreshold
              && a.contradiction == NoContradiction && a.staleness == Fresh
  {
  }

  lemma FreshExactly(records: seq<Entry>, now: Time, signals: SignalConfig)
    requires records != [] && signals.Valid()
    ensures Analyze(records, now, signals).staleness == Fresh <==> (now - Latest(records)) / DAY_MS < signals.agingDays
  {
  }

  lemma UncontradictedExactly(records: seq<Entry>, now: Time, signals: SignalConfig)
    requires records != []
    ensures Analyze(records, now, signals).contradiction == NoContradiction
       <==> CountClass(records, Positive) == 0 || CountClass(records, Negative) == 0
    ensures Analyze(records, now, signals).count == |records|
  {
  }

  // Exactly when a cluster is promoted, for any settings; ConfidentExactly says what the bound of 0.6 asks for.
  lemma PromotedExactly(records: seq<Entry>, now: Time, signals: SignalConfig, config: Lifecycle)
    requires records != [] && signals.Valid()
    ensures Decide(records, now, signals, config) == Promote <==>
              && |records| as real >= config.mediumMinSignals
              && (CountClass(records, Positive) == 0 || CountClass(records, Negative) == 0)
              && (now - Latest(records)) / DAY_MS < signals.agingDays
              && Confidence(records, config) >= config.retirementThreshold
              && Confident(Confidence(records, config), |records|, config)
  {
    NothingMissing(records, now, signals);
    GuardExactly(Confidence(records, config), Analyze(records, now, signals), config);
    FreshExactly(records, now, signals);
    UncontradictedExactly(records, now, signals);
  }

  // Whether the records speak both for and against.
  predicate Mixed(records: seq<Entry>) {
    && (exists r :: r in records && r.sentiment in {StrongPositive, WeakPositive})
    && (exists r :: r in records && r.sentiment in {StrongNegative, WeakNegative})
  }

  lemma MixedExactly(records: seq<Entry>)
    ensures Mixed(records) <==> CountClass(records, Positive) != 0 && CountClass(records, Negative) != 0
  {
    ClassesTallied(records);
    TallyIsZero(records, {StrongPositive, WeakPositive});
    TallyIsZero(records, {StrongNegative, WeakNegative});
  }

  // Neither number reaches the given share of both.
  predicate NoneDominates(a: nat, b: nat, dominance: real) {
    a as real < dominance * (a + b) as real && b as real < dominance * (a + b) as real
  }

  ghost predicate Undecided(records: seq<Entry>, dominance: real) {
    NoneDominates(Tally(records, {StrongPositive, WeakPositive}), Tally(records, {StrongNegative, WeakNegative}),
                  dominance)
  }

  lemma ShareBelow(part: nat, whole: nat, bar: real)
    requires whole > 0
    ensures part as real / whole as real < bar <==> part as real < bar * whole as real
  {
    var share := part as real / whole as real;
    assert share * whole as real == part as real;
    if share < bar {
      assert share * whole as real < bar * whole as real;
    } else {
      assert share * whole as real >= bar * whole as real;
    }
  }

  lemma BlockingExactly(positive: nat, negative: nat, config: SignalConfig)
    ensures ContradictionOf(positive, negative, config) == Blocking <==>
              positive > 0 && negative > 0 && NoneDominates(positive, negative, config.dominance)
  {
    if positive > 0 && negative > 0 {
      ShareBelow(positive, positive + negative, config.dominance);
      ShareBelow(negative, positive + negative, config.dominance);
    }
  }

  lemma BlockedExactly(records: seq<Entry>, now: Time, signals: SignalConfig)
    requires records != []
    ensures Analyze(records, now, signals).contradiction == Blocking
       <==> Mixed(records) && Undecided(records, signals.dominance)
  {
    var positive, negative := CountClass(records, Positive), CountClass(records, Negative);
    assert Analyze(records, now, signals).contradiction == ContradictionOf(positive, negative, signals);
    BlockingExactly(positive, negative, signals);
    ClassesTallied(records);
    MixedExactly(records);
  }

  // Whether a record was touched less than so many days ago.
  predicate TouchedWithin(records: seq<Entry>, now: Time, days: nat) {
    exists r :: r in records && now - r.updatedAt < days * 86_400_000
  }

  lemma RecentExactly(records: seq<Entry>, now: Time, signals: SignalConfig)
    requires records != [] && signals.Valid()
    ensures (now - Latest(records)) / DAY_MS < signals.agingDays <==> TouchedWithin(records, now, signals.agingDays)
  {
    AgeReaches(Latest(records), now, signals.agingDays);
    LatestDecides(records, now, signals.agingDays);
  }

  // The whole verdict: mixed records in which neither side dominates are rejected; records that are not mixed, fresh
  // and measured high enough are promoted; everything else is held, mixed records with a dominant side among it.
  lemma DecisionExactly(records: seq<Entry>, now: Time, signals: SignalConfig, config: Lifecycle)
    requires records != [] && signals.Valid()
    ensures Decide(records, now, signals, config) == Reject <==>
              Mixed(records) && Undecided(records, signals.dominance)
    ensures var n, confidence := |records| as real, Confidence(records, config);
            Decide(records, now, signals, config) == Promote <==>
              && !Mixed(records) && TouchedWithin(records, now, signals.agingDays)
              && n >= config.mediumMinSignals && confidence >= config.retirementThreshold
              && (confidence >= 0.6 || (confidence >= config.highThreshold && n >= config.highMinSignals))
    ensures Mixed(records) ==>
              Decide(records, now, signals, config) == if Undecided(records, signals.dominance) then Reject else Hold
  {
    NothingMissing(records, now, signals);
    BlockedExactly(records, now, signals);
    MixedExactly(records);
    RecentExactly(records, now, signals);
    PromotedExactly(records, now, signals, config);
  }

  // What the analysis reports beside that.
  lemma AnalysisExactly(records: seq<Entry>, now: Time, signals: SignalConfig)
    requires records != [] && signals.Valid()
    ensures
      var a := Analyze(records, now, signals);
      && a.count == |records| && a.positive == Tally(records, {StrongPositive, WeakPositive})
      && a.negative == Tally(records, {StrongNegative, WeakNegative}) && a.neutral == Tally(records, {Neutral})
      && (a.contradiction == NoContradiction <==> !Mixed(records))
      && (a.staleness == Fresh <==> TouchedWithin(records, now, signals.agingDays))
      && (a.staleness == Stale <==> !TouchedWithin(records, now, signals.staleDays))
      && (forall t :: t in a.sourceTraceIds <==> exists r :: r in records && r.traceId == t)
      && a.evidenceRefs <= |a.sourceTraceIds| && a.evidenceRefs <= signals.evidenceRefLimit
      && (a.evidenceRefs == |a.sourceTraceIds| || a.evidenceRefs == signals.evidenceRefLimit)
  {
    ClassesTallied(records);
    ClassesAddUp(records);
    MixedExactly(records);
    UncontradictedExactly(records, now, signals);
    StalenessExactly(records, now, signals);
    TraceIdsContents(records);
    assert records[0].traceId in TraceIds(records);
    assert |TraceIds(records)| >= 1;
  }

  lemma AgeReaches(latest: Time, now: Time, days: nat)
    requires days >= 1
    ensures AgeDays(latest, now) >= days <==> now - latest >= days * 86_400_000
  {
  }

  lemma LatestDecides(records: seq<Entry>, now: Time, days: nat)
    requires records != []
    ensures TouchedWithin(records, now, days) <==> now - Latest(records) < days * 86_400_000
  {
    LatestIsLatest(records);
    var latest :| latest in records && latest.updatedAt == Latest(records);
    assert forall r :: r in records ==> now - r.updatedAt >= now - latest.updatedAt;
  }

  lemma StalenessExactly(records: seq<Entry>, now: Time, signals: SignalConfig)
    requires records != [] && signals.Valid()
    ensures var staleness := Analyze(records, now, signals).staleness;
            && (staleness == Fresh <==> TouchedWithin(records, now, signals.agingDays))
            && (staleness == Stale <==> !TouchedWithin(records, now, signals.staleDays))
  {
    AgeReaches(Latest(records), now, signals.agingDays);
    AgeReaches(Latest(records), now, signals.staleDays);
    LatestDecides(records, now, signals.agingDays);
    LatestDecides(records, now, signals.staleDays);
    hide Latest, AgeDays, TouchedWithin, CountClass;
  }

  lemma {:induction false} TraceIdsContents(records: seq<Entry>)
    ensures forall t :: t in TraceIds(records) <==> exists r :: r in records && r.traceId == t
  {
    if records != [] {
      TraceIdsContents(records[1..]);
      assert records == [records[0]] + records[1..];
    }
  }

  // Under the schema the confidence conditions come down to 0.6.
  lemma PromotedUnderSchema(records: seq<Entry>, now: Time, signals: SignalConfig, config: Lifecycle)
    requires records != [] && signals.Valid() && config.Valid()
    ensures Decide(records, now, signals, config) == Promote <==>
              && !Mixed(records) && TouchedWithin(records, now, signals.agingDays)
              && |records| as real >= config.mediumMinSignals && Confidence(records, config) >= 0.6
  {
    DecisionExactly(records, now, signals, config);
  }

  /******* What the confidence measures *******/

  // The number of hundredths nearest to x, the upper one of two.
  ghost predicate IsRounded(c: real, x: real) {
    (c * 100.0).Floor as real == c * 100.0 && x - 0.005 < c <= x + 0.005
  }

  lemma RoundedExactly(x: real)
    requires 0.0 <= x <= 1.0
    ensures IsRounded(RoundConfidence(x), x)
  {
    var y := x * 100.0 + 0.5;
    assert RoundConfidence(x) == y.Floor as real / 100.0;
    assert y.Floor as real <= y < y.Floor as real + 1.0;
  }

  // The largest of the three classes.
  ghost function LargestTally(records: seq<Entry>): nat {
    MaxNat(Tally(records, {StrongPositive, WeakPositive}),
           MaxNat(Tally(records, {StrongNegative, WeakNegative}), Tally(records, {Neutral})))
  }

  lemma AlignedTallied(records: seq<Entry>)
    ensures Aligned(records) == LargestTally(records)
  {
    ClassesTallied(records);
  }

  lemma RawOfShare(aligned: nat, count: nat, high: real)
    requires aligned <= count && 0 < count
    ensures high < 0.0 ==> RawConfidence(aligned, count, high) <= 0.0
    ensures high >= 0.0 ==> RawConfidence(aligned, count, high) == aligned as real / Max(count as real, high)
    ensures high >= 0.0 ==> 0.0 <= RawConfidence(aligned, count, high) <= 1.0
  {
    var a, n := aligned as real, count as real;
    if high < 0.0 {
      assert n / high <= 0.0 by { NegativeShare(n, high); }
    } else if high <= n {
      assert VolumeFactor(count, high) == 1.0 by { if high > 0.0 { AtLeastWhole(n, high); } }
      ShareIsBounded(a, n);
    } else {
      assert VolumeFactor(count, high) == n / high by { AtMostWhole(n, high); }
      SharesCancel(a, n, high);
      ShareIsBounded(a, high);
    }
  }

  lemma NegativeShare(n: real, h: real)
    requires n > 0.0 > h
    ensures n / h <= 0.0
  {
  }

  lemma AtLeastWhole(n: real, h: real)
    requires 0.0 < h <= n
    ensures n / h >= 1.0
  {
  }

  lemma AtMostWhole(n: real, h: real)
    requires 0.0 <= n < h
    ensures n / h <= 1.0
  {
  }

  lemma ShareIsBounded(a: real, n: real)
    requires 0.0 <= a <= n && 0.0 < n
    ensures 0.0 <= a / n <= 1.0
  {
  }

  lemma SharesCancel(a: real, n: real, h: real)
    requires n > 0.0 && h > 0.0
    ensures (a / n) * (n / h) == a / h
  {
    assert (a / n) * n == a;
    assert (a / n) * (n / h) * h == (a / n) * n;
  }

  // Too few signals measure nothing, and so does a negative volume setting. Otherwise the confidence is, rounded to
  // hundredths, the largest class as a share of the number of records or of the volume setting, whichever is greater.
  ghost predicate Measures(confidence: real, records: seq<Entry>, config: Lifecycle)
    requires records != []
  {
    var n := |records| as real;
    if n < config.minSignals || config.highMinSignals < 0.0 then confidence == 0.0
    else IsRounded(confidence, LargestTally(records) as real / Max(n, config.highMinSignals))
  }

  lemma ConfidenceMeasures(records: seq<Entry>, config: Lifecycle)
    requires records != []
    ensures Measures(Confidence(records, config), records, config)
  {
    AlignedTallied(records);
    var raw := RawConfidence(Aligned(records), |records|, config.highMinSignals);
    RawOfShare(Aligned(records), |records|, config.highMinSignals);
    if config.highMinSignals >= 0.0 {
      RoundedExactly(raw);
    } else {
      assert RoundConfidence(raw) == 0.0;
    }
  }

  lemma ShareAtLeastExactly(a: real, b: real, bar: real)
    requires b > 0.0
    ensures a / b >= bar <==> a >= bar * b
  {
    var share := a / b;
    assert share * b == a;
    if share >= bar {
      ScaleUp(bar, share, b);
    } else {
      assert share * b < bar * b;
    }
  }

  // When it reaches 0.6: from a share of 0.595 on.
  lemma ConfidentExactly(records: seq<Entry>, config: Lifecycle)
    requires records != []
    ensures Confidence(records, config) >= 0.6 <==>
              && |records| as real >= config.minSignals && config.highMinSignals >= 0.0
              && LargestTally(records) as real >= 0.595 * |records| as real
              && LargestTally(records) as real >= 0.595 * config.highMinSignals
  {
    AlignedTallied(records);
    var largest, n, high := Aligned(records), |records|, config.highMinSignals;
    RoundingThreshold(RawConfidence(largest, n, high));
    RawOfShare(largest, n, high);
    if high >= 0.0 {
      ShareAtLeastExactly(largest as real, Max(n as real, high), 0.595);
    }
  }

  /******* How many aligned records a promotion needs *******/

  lemma RoundingAddsLittle(x: real)
    ensures RoundConfidence(x) <= Max(0.0, x) + 0.005
  {
    var y := Min(1.0, Max(0.0, x)) * 100.0 + 0.5;
    assert y.Floor as real <= y;
  }

  lemma RawConfidenceBound(aligned: nat, count: nat, high: real)
    requires aligned <= count && 0 < count && 0.0 < high
    ensures RawConfidence(aligned, count, high) * high <= aligned as real
  {
    var share, n := aligned as real / count as real, count as real;
    assert share >= 0.0 && share * n == aligned as real;
    if n <= high {
      ShareOfShare(share, n, high);
    } else {
      assert n / high >= 1.0 by { WholeAndMore(n, high); }
      assert RawConfidence(aligned, count, high) == share;
      assert share * high <= share * n;
    }
  }

  lemma ShareOfShare(share: real, n: real, h: real)
    requires 0.0 < n <= h
    ensures share * Min(1.0, n / h) * h == share * n
  {
    assert n / h <= 1.0;
    assert (n / h) * h == n;
    assert share * (n / h) * h == share * ((n / h) * h);
  }

  lemma WholeAndMore(n: real, h: real)
    requires 0.0 < h < n
    ensures n / h >= 1.0
  {
  }

  // The aligned records are at least a share of the volume setting: a bar for the confidence, less the rounding.
  predicate Clears(aligned: nat, bar: real, high: real) {
    aligned as real >= (bar - 0.005) * high
  }

  // For any settings with a positive volume setting, a promoted cluster holds at least so many records of one outcome
  // class: the lower of the two confidence bars, less the rounding, as a share of the volume setting.
  lemma PromotionNeedsAligned(records: seq<Entry>, now: Time, signals: SignalConfig, config: Lifecycle)
    requires records != [] && signals.Valid() && config.highMinSignals > 0.0
    requires Decide(records, now, signals, config) == Promote
    ensures Clears(LargestTally(records), Min(0.6, config.highThreshold), config.highMinSignals)
  {
    AlignedTallied(records);
    PromotedIsConfident(records, now, signals, config);
    ConfidenceNeedsAligned(records, config, Min(0.6, config.highThreshold));
  }

  lemma PromotedIsConfident(records: seq<Entry>, now: Time, signals: SignalConfig, config: Lifecycle)
    requires records != [] && signals.Valid() && Decide(records, now, signals, config) == Promote
    ensures Confidence(records, config) >= Min(0.6, config.highThreshold)
  {
    PromotedExactly(records, now, signals, config);
  }

  lemma ConfidenceNeedsAligned(records: seq<Entry>, config: Lifecycle, bar: real)
    requires records != [] && config.highMinSignals > 0.0 && Confidence(records, config) >= bar
    ensures Clears(Aligned(records), bar, config.highMinSignals)
  {
    if |records| as real < config.minSignals {
      BarBound(bar, 0.0, 0.0, config.highMinSignals, Aligned(records));
    } else {
      RoundedNeedsAligned(Aligned(records), |records|, config.highMinSignals, bar);
    }
  }

  lemma RoundedNeedsAligned(aligned: nat, count: nat, high: real, bar: real)
    requires aligned <= count && 0 < count && 0.0 < high && RoundConfidence(RawConfidence(aligned, count, high)) >= bar
    ensures Clears(aligned, bar, high)
  {
    var raw := RawConfidence(aligned, count, high);
    RoundingAddsLittle(raw);
    RawConfidenceBound(aligned, count, high);
    BarBound(bar, RoundConfidence(raw), raw, high, aligned);
  }

  lemma BarBound(bar: real, confidence: real, raw: real, high: real, aligned: nat)
    requires bar <= confidence <= Max(0.0, raw) + 0.005 && raw * high <= aligned as real && 0.0 < high
    ensures Clears(aligned, bar, high)
  {
    if bar - 0.005 <= 0.0 {
      NotPositive(bar - 0.005, high);
    } else {
      ScaleUp(bar - 0.005, raw, high);
    }
  }

  lemma NotPositive(x: real, h: real)
    requires x <= 0.0 && h > 0.0
    ensures x * h <= 0.0
  {
  }

  lemma ScaleUp(x: real, y: real, h: real)
    requires x <= y && h > 0.0
    ensures x * h <= y * h
  {
  }

  // Under the schema that is nine: a smaller cluster is never promoted, whatever the signal minimum says.
  lemma PromotionNeedsNineAligned(records: seq<Entry>, now: Time, signals: SignalConfig, config: Lifecycle)
    requires records != [] && config.Valid() && signals.Valid()
    requires Decide(records, now, signals, config) == Promote
    ensures LargestTally(records) >= 9
  {
    PromotionNeedsAligned(records, now, signals, config);
    ScaleUp(15.0, config.highMinSignals, 0.595);
    assert Min(0.6, config.highThreshold) == 0.6;
  }

  lemma RawOfAligned(n: nat, high: real)
    requires n > 0 && 0.0 < high && n as real >= 0.6 * high
    ensures RawConfidence(n, n, high) >= 0.6
  {
    var x := n as real;
    assert x / x == 1.0;
    assert x / high >= 0.6 by { ShareAtLeast(x, high); }
  }

  lemma ShareAtLeast(x: real, h: real)
    requires 0.0 < h && x >= 0.6 * h
    ensures x / h >= 0.6
  {
  }

  // And aligned records in that number are enough: recent records of one class, at least six tenths of the volume
  // setting and enough for the other minima, are promoted.
  lemma AlignedAreEnough(records: seq<Entry>, now: Time, signals: SignalConfig, config: Lifecycle)
    requires records != [] && signals.Valid() && config.highMinSignals > 0.0 && config.retirementThreshold <= 0.6
    requires config.minSignals <= |records| as real && config.mediumMinSignals <= |records| as real
    requires LargestTally(records) == |records| && |records| as real >= 0.6 * config.highMinSignals
    requires TouchedWithin(records, now, signals.agingDays)
    ensures Decide(records, now, signals, config) == Promote
  {
    AlignedTallied(records);
    RecentExactly(records, now, signals);
    ClassesAddUp(records);
    RawOfAligned(|records|, config.highMinSignals);
    assert Confidence(records, config) >= 0.6 by { ConfidentExactly(records, config); }
    PromotedExactly(records, now, signals, config);
  }

  /******* Witnesses *******/

  function Signal(id: EntryId): Entry {
    Entry(id, ExperienceRecord, "met", Project, Some(0), 1.0, StrongPositive, id, {}, 0, 0, EvidenceImmutable, Active,
          None, None, None, ProjectPlacement, None, [])
  }

  function Signals(n: nat): (records: seq<Entry>)
    ensures |records| == n && CountClass(records, Positive) == n && CountClass(records, Negative) == 0
    ensures CountClass(records, NeutralClass) == 0 && forall r :: r in records ==> r.updatedAt == 0
  {
    if n == 0 then []
    else
      var records := Signals(n - 1) + [Signal(n)];
      assert records[..|records| - 1] == Signals(n - 1);
      records
  }

  lemma TwentyFiveOfFortyTwo()
    ensures RawConfidence(25, 25, 42.0) < 0.6 && RoundConfidence(RawConfidence(25, 25, 42.0)) == 0.6
  {
    var raw := 25.0 / 42.0;
    assert 25.0 / 25.0 == 1.0;
    assert RawConfidence(25, 25, 42.0) == raw;
    var y := raw * 100.0 + 0.5;
    assert 60.0 <= y < 61.0;
    assert y.Floor == 60;
  }

  lemma SignalsAreRecent(n: nat)
    requires n > 0
    ensures LargestTally(Signals(n)) == n && TouchedWithin(Signals(n), 0, 7)
  {
    AlignedTallied(Signals(n));
    assert Signals(n)[0] in Signals(n);
  }

  // The rounding matters: at a volume setting of 42, twenty-five aligned records measure below 0.6, and are promoted
  // on a confidence of 0.6.
  lemma RoundingLetsThrough() returns (records: seq<Entry>, signals: SignalConfig, config: Lifecycle)
    ensures records != [] && signals.Valid() && config.Valid()
    ensures LargestTally(records) as real < 0.6 * config.highMinSignals
    ensures Confidence(records, config) == 0.6 && Decide(records, 0, signals, config) == Promote
  {
    records := Signals(25);
    signals := SignalConfig(7, 30, 0.6, 3);
    config := Lifecycle(3.0, 0.9, 42.0, 5.0, 0.4);
    SignalsAreRecent(25);
    TwentyFiveOfFortyTwo();
    assert Confidence(records, config) == 0.6;
    SignalsPromoted(25, signals, config);
  }

  lemma SignalsPromoted(n: nat, signals: SignalConfig, config: Lifecycle)
    requires n > 0 && signals.Valid() && config.Valid() && n as real >= config.mediumMinSignals
    requires Confidence(Signals(n), config) >= 0.6
    ensures Decide(Signals(n), 0, signals, config) == Promote
  {
    SignalsAreRecent(n);
    MixedExactly(Signals(n));
    PromotedUnderSchema(Signals(n), 0, signals, config);
    hide Decide, Confidence, CountClass, Latest;
  }

  // Settings outside the schema, which the engine does not refuse, promote smaller clusters: five records at a volume
  // setting of five.
  lemma FiveUnderLooseSettings() returns (records: seq<Entry>, signals: SignalConfig, config: Lifecycle)
    ensures |records| == 5 && signals.Valid() && !config.Valid() && Decide(records, 0, signals, config) == Promote
  {
    records := Signals(5);
    signals := SignalConfig(7, 30, 0.6, 3);
    config := Lifecycle(3.0, 0.9, 5.0, 5.0, 0.4);
    SignalsAreRecent(5);
    AlignedAreEnough(records, 0, signals, config);
  }
}
