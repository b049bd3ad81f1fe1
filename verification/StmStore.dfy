/**
 * Short-term memory of a project: the live entries, a rolling summary of the entries compacted away, and the
 * compaction records, which are never rewritten.
 *
 * The store is opened with a compaction policy, and may later be opened again with another one over the same
 * documents, so every call of a run carries the policy it was made under.
 */
module StmStore {
  import opened Memory

  datatype StmEntry = StmEntry(role: string, content: string, timestamp: Time)
  datatype Policy = Policy(maxTokens: nat, targetTokens: nat, minEntries: nat, retained: nat)
  datatype Context = Context(entries: seq<StmEntry>, summary: Option<string>, tokenCount: nat, requiresCompaction: bool)
  datatype SourceRef = SourceRef(timestamp: Time, role: string, contentHash: Hash)
  datatype Trigger = TokenThreshold | Manual
  datatype Record = Record(
    summary: string,
    refs: seq<SourceRef>,
    count: nat,
    trigger: Trigger,
    preTokens: nat,
    postTokens: nat,
    retained: nat)

  // What the document store holds for one project; records in the order they were put.
  datatype Shelf = Shelf(stored: Option<Context>, records: seq<Record>)

  datatype Fault = Reliable | RecordPutFails | ContextPutFails
  datatype Event = Append(entry: StmEntry, putFails: bool) | Compact(fault: Fault) | Clear(deleteFails: bool)
  datatype Call = Call(policy: Policy, event: Event)

  const EMPTY := Shelf(None, [])

  predicate ValidPolicy(p: Policy) {
    0 < p.targetTokens < p.maxTokens && 1 <= p.retained < p.minEntries
  }

  predicate ValidEntry(e: StmEntry) {
    e.role in ["user", "assistant", "system", "tool"]
  }

  // ----- Token arithmetic, transcript lines, and the context built from them -----

  function Tokens(s: string): nat {
    (|s| + 3) / 4
  }

  function SumTokens(entries: seq<StmEntry>): nat {
    if entries == [] then 0 else Tokens(entries[0].content) + SumTokens(entries[1..])
  }

  function Line(e: StmEntry): string {
    e.role + ": " + e.content
  }

  function Lines(entries: seq<StmEntry>): string {
    if entries == [] then ""
    else if |entries| == 1 then Line(entries[0])
    else Line(entries[0]) + "\n" + Lines(entries[1..])
  }

  function Text(summary: Option<string>): string {
    if summary.Some? then summary.value else ""
  }

  // The empty string counts as no summary.
  function Normalize(summary: Option<string>): Option<string> {
    if Text(summary) == "" then None else summary
  }

  function Merge(existing: Option<string>, next: string): string {
    if Text(existing) == "" then next
    else if next == "" then existing.value
    else existing.value + "\n\n" + next
  }

  function Last(s: string, n: nat): string {
    if |s| <= n then s else s[|s| - n..]
  }

  function Trim(summary: string, budget: nat): Option<string> {
    if summary == "" || budget == 0 then None
    else if |summary| <= budget * 4 then Some(summary)
    else Some(summary[|summary| - budget * 4..])
  }

  function Build(entries: seq<StmEntry>, summary: Option<string>, p: Policy): Context {
    var kept := Normalize(summary);
    var tokens := Tokens(Text(kept)) + SumTokens(entries);
    Context(entries, kept, tokens, tokens > p.maxTokens && |entries| >= p.minEntries)
  }

  function Fetch(s: Shelf, p: Policy): Context {
    match s.stored
    case None => Build([], None, p)
    case Some(context) => Build(context.entries, context.summary, p)
  }

  // ----- One compaction -----

  predicate Effective(c: Context, p: Policy) {
    |c.entries| >= p.minEntries
  }

  function Evicted(c: Context, p: Policy): seq<StmEntry>
    requires ValidPolicy(p) && Effective(c, p)
  {
    c.entries[..|c.entries| - p.retained]
  }

  function Retained(c: Context, p: Policy): seq<StmEntry>
    requires ValidPolicy(p) && Effective(c, p)
  {
    c.entries[|c.entries| - p.retained..]
  }

  function Budget(retained: seq<StmEntry>, p: Policy): nat {
    if SumTokens(retained) < p.targetTokens then p.targetTokens - SumTokens(retained) else 0
  }

  function RefOf(e: StmEntry): SourceRef {
    SourceRef(e.timestamp, e.role, Sha256(e.content))
  }

  function Refs(entries: seq<StmEntry>): seq<SourceRef> {
    if entries == [] then [] else [RefOf(entries[0])] + Refs(entries[1..])
  }

  function Compacted(c: Context, p: Policy): Context
    requires ValidPolicy(p) && Effective(c, p)
  {
    var budget := Budget(Retained(c, p), p);
    Build(Retained(c, p), Trim(Merge(c.summary, Lines(Evicted(c, p))), budget), p)
  }

  function RecordOf(c: Context, p: Policy): Record
    requires ValidPolicy(p) && Effective(c, p)
  {
    var evicted := Evicted(c, p);
    Record(Text(Trim(Lines(evicted), Budget(Retained(c, p), p))), Refs(evicted), |evicted|,
           if c.requiresCompaction then TokenThreshold else Manual,
           c.tokenCount, Compacted(c, p).tokenCount, p.retained)
  }

  // ----- Steps and runs -----

  predicate Accepted(e: Event) {
    e.Append? && ValidEntry(e.entry) && !e.putFails
  }

  predicate Cleared(e: Event) {
    e.Clear? && !e.deleteFails
  }

  function Step(s: Shelf, call: Call): Shelf
    requires ValidPolicy(call.policy)
  {
    var c := Fetch(s, call.policy);
    match call.event
    case Append(entry, _) =>
      if Accepted(call.event) then s.(stored := Some(Build(c.entries + [entry], c.summary, call.policy))) else s
    case Compact(fault) =>
      if !Effective(c, call.policy) || fault == RecordPutFails then s
      else Shelf(if fault == Reliable then Some(Compacted(c, call.policy)) else s.stored,
                 s.records + [RecordOf(c, call.policy)])
    case Clear(_) => if Cleared(call.event) then s.(stored := None) else s
  }

  predicate ValidCalls(calls: seq<Call>) {
    forall i :: 0 <= i < |calls| ==> ValidPolicy(calls[i].policy)
  }

  function Init<T>(xs: seq<T>): seq<T>
    requires xs != []
  {
    xs[..|xs| - 1]
  }

  function Final<T>(xs: seq<T>): T
    requires xs != []
  {
    xs[|xs| - 1]
  }

  function Run(calls: seq<Call>): Shelf
    requires ValidCalls(calls)
  {
    if calls == [] then EMPTY else Step(Run(Init(calls)), Final(calls))
  }

  function Live(s: Shelf): seq<StmEntry> {
    if s.stored.Some? then s.stored.value.entries else []
  }

  function SummaryOf(s: Shelf): string {
    if s.stored.Some? then Text(s.stored.value.summary) else ""
  }

  // ----- What a clear takes away -----

  // Records that were there before stay in front, and influence nothing.
  lemma RecordsAreApart(s: Shelf, known: seq<Record>, call: Call)
    requires ValidPolicy(call.policy)
    ensures Step(s.(records := known + s.records), call) ==
            Shelf(Step(s, call).stored, known + Step(s, call).records)
  {
    var c := Fetch(s, call.policy);
    if call.event.Compact? && Effective(c, call.policy) {
      assert known + (s.records + [RecordOf(c, call.policy)]) == (known + s.records) + [RecordOf(c, call.policy)];
    }
  }

  // A clear forgets: whatever was done before it, live entries and summary are what the calls after it alone would
  // have made; the records of before stay.
  lemma {:induction false} ClearForgets(before: seq<Call>, clear: Call, after: seq<Call>)
    requires ValidCalls(before) && ValidCalls(after) && ValidPolicy(clear.policy) && Cleared(clear.event)
    ensures ValidCalls(before + [clear] + after)
    ensures Run(before + [clear] + after) == Shelf(Run(after).stored, Run(before).records + Run(after).records)
  {
    var calls := before + [clear] + after;
    if after == [] {
      assert calls == before + [clear] && Init(calls) == before;
    } else {
      var last := Final(after);
      assert Init(calls) == before + [clear] + Init(after) && Final(calls) == last;
      ClearForgets(before, clear, Init(after));
      RecordsAreApart(Run(Init(after)), Run(before).records, last);
    }
  }

  // A clear that did not fail leaves no context, and the records as they were; one that failed changes nothing.
  lemma ClearEmpties(calls: seq<Call>, clear: Call)
    requires ValidCalls(calls) && ValidPolicy(clear.policy) && clear.event.Clear?
    ensures ValidCalls(calls + [clear]) && Run(calls + [clear]).records == Run(calls).records
    ensures clear.event.deleteFails ==> Run(calls + [clear]) == Run(calls)
    ensures !clear.event.deleteFails ==> Live(Run(calls + [clear])) == [] && SummaryOf(Run(calls + [clear])) == ""
  {
    var longer := calls + [clear];
    assert Init(longer) == calls && Final(longer) == clear;
    assert Run(longer) == Step(Run(calls), clear);
  }

  // ----- The unbounded transcript that the rolling summary stands for -----

  datatype Batch = Batch(text: string, budget: nat)

  predicate Commits(s: Shelf, call: Call) {
    call.event == Compact(Reliable) && Effective(Fetch(s, call.policy), call.policy)
  }

  function BatchOf(c: Context, p: Policy): Batch
    requires ValidPolicy(p) && Effective(c, p)
  {
    Batch(Lines(Evicted(c, p)), Budget(Retained(c, p), p))
  }

  // The full texts of the batches compacted since the last clear, with the budget of each compaction.
  function Batches(calls: seq<Call>): seq<Batch>
    requires ValidCalls(calls)
  {
    if calls == [] then []
    else
      var before := Run(Init(calls));
      var call := Final(calls);
      if Commits(before, call) then Batches(Init(calls)) + [BatchOf(Fetch(before, call.policy), call.policy)]
      else if Cleared(call.event) then []
      else Batches(Init(calls))
  }

  function Transcript(bs: seq<Batch>): string {
    if bs == [] then ""
    else if |bs| == 1 then bs[0].text
    else Transcript(Init(bs)) + "\n\n" + Final(bs).text
  }

  function Min(a: nat, b: nat): nat {
    if a < b then a else b
  }

  // How much of the transcript is still held.
  function Kept(bs: seq<Batch>): nat {
    if bs == [] then 0
    else
      var before := Kept(Init(bs));
      Min(4 * Final(bs).budget, if before == 0 then |Final(bs).text| else before + 2 + |Final(bs).text|)
  }

  predicate NoEmptyText(bs: seq<Batch>) {
    forall i :: 0 <= i < |bs| ==> bs[i].text != ""
  }

  lemma {:induction false} KeptIsWithinTranscript(bs: seq<Batch>)
    ensures Kept(bs) <= |Transcript(bs)|
  {
    if bs == [] {
    } else {
      KeptIsWithinTranscript(Init(bs));
      if |bs| == 1 {
        assert Init(bs) == [];
      }
    }
  }

  lemma LastOfLast(s: string, m: nat, n: nat)
    requires m <= n
    ensures Last(Last(s, n), m) == Last(s, m)
  {
  }

  lemma LastOfConcat(s: string, t: string, n: nat)
    requires n <= |s|
    ensures Last(s, n) + t == Last(s + t, n + |t|)
  {
    assert Last(s, n) == s[|s| - n..];
    assert (s + t)[|s| - n..] == s[|s| - n..] + t;
    if |s| <= n {
      assert Last(s, n) + t == s + t;
    }
  }

  lemma TrimIsLast(s: string, budget: nat)
    ensures Text(Normalize(Trim(s, budget))) == Text(Trim(s, budget)) == Last(s, 4 * budget)
  {
    if budget > 0 {
      assert |Last(s, 4 * budget)| == Min(|s|, 4 * budget);
    }
  }

  lemma TranscriptGrows(bs: seq<Batch>, b: Batch)
    ensures Transcript(bs + [b]) == if bs == [] then b.text else Transcript(bs) + ("\n\n" + b.text)
    ensures Kept(bs + [b]) == Min(4 * b.budget, if Kept(bs) == 0 then |b.text| else Kept(bs) + 2 + |b.text|)
  {
    assert Init(bs + [b]) == bs && Final(bs + [b]) == b;
    if bs != [] {
      assert Transcript(bs) + "\n\n" + b.text == Transcript(bs) + ("\n\n" + b.text);
    }
  }

  lemma LastOfPadded(t: string, next: string, n: nat)
    requires n <= |next|
    ensures Last(t + next, n) == Last(next, n)
  {
    assert (t + next)[|t| + |next| - n..] == next[|next| - n..];
  }

  // What merging adds to a suffix of width k of the text t.
  lemma MergeLast(t: string, k: nat, existing: Option<string>, next: string)
    requires next != "" && k <= |t| && Text(existing) == Last(t, k)
    ensures Merge(existing, next) == Last(t + ("\n\n" + next), if k == 0 then |next| else k + 2 + |next|)
    ensures |Merge(existing, next)| == if k == 0 then |next| else k + 2 + |next|
  {
    var tail := "\n\n" + next;
    if k == 0 {
      assert Merge(existing, next) == next;
      LastOfPadded(t + "\n\n", next, |next|);
      assert t + "\n\n" + next == t + tail;
    } else {
      assert |Text(existing)| == k;
      assert existing.value + "\n\n" + next == existing.value + tail;
      LastOfConcat(t, tail, k);
    }
  }

  lemma LastOfWindow(whole: string, width: nat, n: nat)
    requires width <= |whole|
    ensures Last(Last(whole, width), n) == Last(whole, Min(n, width))
  {
    if n <= width {
      LastOfLast(whole, n, width);
    }
  }

  lemma MergeIsWindow(bs: seq<Batch>, existing: Option<string>, b: Batch, width: nat)
    requires b.text != "" && Text(existing) == Last(Transcript(bs), Kept(bs))
    requires width == if Kept(bs) == 0 then |b.text| else Kept(bs) + 2 + |b.text|
    ensures Merge(existing, b.text) == Last(Transcript(bs + [b]), width)
    ensures width <= |Transcript(bs + [b])|
  {
    KeptIsWithinTranscript(bs);
    TranscriptGrows(bs, b);
    if bs == [] {
      assert Merge(existing, b.text) == b.text;
    } else {
      MergeLast(Transcript(bs), Kept(bs), existing, b.text);
    }
  }

  // Merging keeps a suffix of the transcript a suffix.
  lemma MergeExtends(bs: seq<Batch>, existing: Option<string>, b: Batch)
    requires b.text != ""
    requires Text(existing) == Last(Transcript(bs), Kept(bs))
    ensures Last(Merge(existing, b.text), 4 * b.budget) == Last(Transcript(bs + [b]), Kept(bs + [b]))
  {
    var width := if Kept(bs) == 0 then |b.text| else Kept(bs) + 2 + |b.text|;
    MergeIsWindow(bs, existing, b, width);
    TranscriptGrows(bs, b);
    LastOfWindow(Transcript(bs + [b]), width, 4 * b.budget);
  }

  lemma {:induction false} LinesAreLong(entries: seq<StmEntry>)
    requires forall i :: 0 <= i < |entries| ==> ValidEntry(entries[i])
    ensures |Lines(entries)| >= 4 * SumTokens(entries)
    ensures entries != [] ==> Lines(entries) != ""
  {
    if entries == [] {
    } else {
      LinesAreLong(entries[1..]);
      assert |Line(entries[0])| >= |entries[0].content| + 6;
      if |entries| == 1 {
        assert SumTokens(entries[1..]) == 0;
      }
    }
  }

  // Every stored entry passed the entry schema, and the stored context is what the store rebuilds on reading.
  predicate Sound(s: Shelf) {
    && (forall i :: 0 <= i < |Live(s)| ==> ValidEntry(Live(s)[i]))
    && (s.stored.Some? ==> s.stored.value.summary != Some(""))
  }

  lemma StepKeepsSound(s: Shelf, call: Call)
    requires ValidPolicy(call.policy) && Sound(s)
    ensures Sound(Step(s, call))
  {
    var c := Fetch(s, call.policy);
    assert c.entries == Live(s);
    if call.event.Compact? && Effective(c, call.policy) {
      forall i | 0 <= i < call.policy.retained ensures ValidEntry(Retained(c, call.policy)[i]) {
        assert Retained(c, call.policy)[i] == Live(s)[|Live(s)| - call.policy.retained + i];
      }
    }
  }

  lemma FetchIsStored(s: Shelf, p: Policy)
    requires Sound(s)
    ensures Fetch(s, p).entries == Live(s) && Text(Fetch(s, p).summary) == SummaryOf(s)
  {
  }

  lemma {:induction false} RunIsSound(calls: seq<Call>)
    requires ValidCalls(calls)
    ensures Sound(Run(calls))
  {
    if calls == [] {
    } else {
      RunIsSound(Init(calls));
      StepKeepsSound(Run(Init(calls)), Final(calls));
    }
  }

  lemma {:induction false} BatchesHaveText(calls: seq<Call>)
    requires ValidCalls(calls)
    ensures NoEmptyText(Batches(calls))
  {
    if calls == [] {
    } else {
      BatchesHaveText(Init(calls));
      var before := Run(Init(calls));
      var p := Final(calls).policy;
      if Commits(before, Final(calls)) {
        RunIsSound(Init(calls));
        FetchIsStored(before, p);
        LinesAreLong(Evicted(Fetch(before, p), p));
      }
    }
  }

  lemma CommittedSummary(calls: seq<Call>, c: Context, b: Batch)
    requires calls != [] && ValidCalls(calls) && Commits(Run(Init(calls)), Final(calls))
    requires c == Fetch(Run(Init(calls)), Final(calls).policy) && b == BatchOf(c, Final(calls).policy)
    ensures b.text != "" && Text(c.summary) == SummaryOf(Run(Init(calls)))
    ensures SummaryOf(Run(calls)) == Last(Merge(c.summary, b.text), 4 * b.budget)
    ensures Batches(calls) == Batches(Init(calls)) + [b]
  {
    var before, p := Run(Init(calls)), Final(calls).policy;
    RunIsSound(Init(calls));
    FetchIsStored(before, p);
    LinesAreLong(Evicted(c, p));
    TrimIsLast(Merge(c.summary, b.text), b.budget);
    assert Run(calls).stored == Some(Compacted(c, p));
  }

  lemma OtherwiseSummaryStays(calls: seq<Call>)
    requires calls != [] && ValidCalls(calls) && !Commits(Run(Init(calls)), Final(calls))
    ensures if Cleared(Final(calls).event) then SummaryOf(Run(calls)) == "" && Batches(calls) == []
            else SummaryOf(Run(calls)) == SummaryOf(Run(Init(calls))) && Batches(calls) == Batches(Init(calls))
  {
    var before, call := Run(Init(calls)), Final(calls);
    RunIsSound(Init(calls));
    FetchIsStored(before, call.policy);
    if Accepted(call.event) {
      var c := Fetch(before, call.policy);
      assert Run(calls).stored == Some(Build(c.entries + [call.event.entry], c.summary, call.policy));
    } else {
      assert Run(calls).stored == if Cleared(call.event) then None else before.stored;
    }
  }

  ghost predicate IsSuffix(calls: seq<Call>)
    requires ValidCalls(calls)
  {
    SummaryOf(Run(calls)) == Last(Transcript(Batches(calls)), Kept(Batches(calls)))
  }

  lemma SuffixStep(calls: seq<Call>)
    requires calls != [] && ValidCalls(calls) && IsSuffix(Init(calls))
    ensures IsSuffix(calls)
  {
    if Commits(Run(Init(calls)), Final(calls)) {
      var c := Fetch(Run(Init(calls)), Final(calls).policy);
      var b := BatchOf(c, Final(calls).policy);
      CommittedSummary(calls, c, b);
      MergeExtends(Batches(Init(calls)), c.summary, b);
    } else {
      OtherwiseSummaryStays(calls);
    }
  }

  lemma {:induction false} EveryRunIsSuffix(calls: seq<Call>)
    requires ValidCalls(calls)
    ensures IsSuffix(calls)
  {
    if calls == [] {
    } else {
      EveryRunIsSuffix(Init(calls));
      SuffixStep(calls);
    }
  }

  // The rolling summary is always a suffix of the transcript of everything compacted since the last clear, and
  // Kept says how long a suffix.
  lemma SummaryIsTranscriptSuffix(calls: seq<Call>)
    requires ValidCalls(calls)
    ensures SummaryOf(Run(calls)) == Last(Transcript(Batches(calls)), Kept(Batches(calls)))
    ensures Kept(Batches(calls)) <= |Transcript(Batches(calls))|
  {
    EveryRunIsSuffix(calls);
    KeptIsWithinTranscript(Batches(calls));
  }

  // ----- When the summary is all that its budget allows -----

  function Length(bs: seq<Batch>, n: nat): nat
    requires n <= |bs|
  {
    |Transcript(bs[..n])|
  }

  // No compaction of the run cut into the last x characters of the whole transcript: each one either came at least
  // a separator before them, or had room for its share of them.
  predicate Reaches(bs: seq<Batch>, x: nat) {
    forall j :: 0 <= j < |bs| ==> Spares(bs, x, j)
  }

  predicate Spares(bs: seq<Batch>, x: nat, j: nat)
    requires j < |bs|
  {
    var after := |Transcript(bs)| - Length(bs, j + 1);
    after >= x + 2 || (bs[j].budget > 0 && after + 4 * bs[j].budget >= x)
  }

  lemma {:induction false} LengthGrows(bs: seq<Batch>, i: nat, j: nat)
    requires i <= j <= |bs| && NoEmptyText(bs)
    ensures Length(bs, i) <= Length(bs, j)
    ensures 0 < i < j ==> Length(bs, i) + 3 <= Length(bs, j)
    decreases j
  {
    if i < j {
      LengthGrows(bs, i, j - 1);
      assert Init(bs[..j]) == bs[..j - 1];
      assert Final(bs[..j]) == bs[j - 1];
    } else {
    }
  }

  lemma LengthOfPrefix(bs: seq<Batch>, b: Batch, n: nat)
    requires n <= |bs|
    ensures Length(bs + [b], n) == Length(bs, n)
  {
    assert (bs + [b])[..n] == bs[..n];
  }

  lemma SparesStep(bs: seq<Batch>, b: Batch, x: nat, j: nat)
    requires bs != [] && j < |bs| && b.text != "" && NoEmptyText(bs)
    ensures |b.text| >= x ==> Spares(bs + [b], x, j)
    ensures |b.text| < x <= |b.text| + 2 ==> (Spares(bs + [b], x, j) <==> Spares(bs, 1, j))
    ensures |b.text| + 2 < x ==> (Spares(bs + [b], x, j) <==> Spares(bs, x - |b.text| - 2, j))
  {
    LengthOfPrefix(bs, b, j + 1);
    LengthGrows(bs, j + 1, |bs|);
    assert bs[..|bs|] == bs && Init(bs + [b]) == bs;
    assert |Transcript(bs + [b])| == |Transcript(bs)| + 2 + |b.text|;
    if j + 1 < |bs| {
      assert Length(bs, j + 1) + 3 <= |Transcript(bs)|;
    }
  }

  lemma LastSpares(bs: seq<Batch>, x: nat)
    requires bs != [] && x > 0
    ensures Spares(bs, x, |bs| - 1) <==> x <= 4 * Final(bs).budget
  {
    assert bs[..|bs|] == bs;
  }

  // Which of the last x characters an earlier compaction had to hold, when the last batch is shorter than x.
  function Share(b: Batch, x: nat): nat
    requires |b.text| < x
  {
    if x <= |b.text| + 2 then 1 else x - |b.text| - 2
  }

  lemma ReachesSplit(init: seq<Batch>, b: Batch, x: nat)
    requires x > 0
    ensures Reaches(init + [b], x) <==> x <= 4 * b.budget && forall j :: 0 <= j < |init| ==> Spares(init + [b], x, j)
  {
    LastSpares(init + [b], x);
    assert Final(init + [b]) == b;
  }

  lemma ReachesStep(init: seq<Batch>, b: Batch, x: nat)
    requires init != [] && NoEmptyText(init) && b.text != "" && x > 0
    ensures x <= |b.text| ==> (Reaches(init + [b], x) <==> x <= 4 * b.budget)
    ensures x > |b.text| ==> (Reaches(init + [b], x) <==> x <= 4 * b.budget && Reaches(init, Share(b, x)))
  {
    ReachesSplit(init, b, x);
    forall j | 0 <= j < |init|
      ensures x <= |b.text| ==> Spares(init + [b], x, j)
      ensures x > |b.text| ==> (Spares(init + [b], x, j) <==> Spares(init, Share(b, x), j))
    {
      SparesStep(init, b, x, j);
    }
  }

  lemma KeptStep(init: seq<Batch>, b: Batch, x: nat)
    requires x > 0
    ensures x <= |b.text| ==> (x <= Kept(init + [b]) <==> x <= 4 * b.budget)
    ensures x > |b.text| ==> (x <= Kept(init + [b]) <==> x <= 4 * b.budget && Share(b, x) <= Kept(init))
  {
    TranscriptGrows(init, b);
  }

  lemma {:induction false} KeptReaches(bs: seq<Batch>, x: nat)
    requires NoEmptyText(bs) && 1 <= x <= |Transcript(bs)|
    ensures x <= Kept(bs) <==> Reaches(bs, x)
    decreases |bs|
  {
    var init, b := Init(bs), Final(bs);
    assert bs == init + [b];
    KeptStep(init, b, x);
    TranscriptGrows(init, b);
    if init == [] {
      ReachesSplit(init, b, x);
    } else {
      ReachesStep(init, b, x);
      NonemptyTranscript(init);
      if x > |b.text| {
        KeptReaches(init, Share(b, x));
      }
    }
  }

  lemma NonemptyTranscript(bs: seq<Batch>)
    requires bs != [] && NoEmptyText(bs)
    ensures |Transcript(bs)| >= 1
  {
    if |bs| == 1 {
      assert bs[0].text != "";
    }
  }

  // Across changes of policy: the summary is the last 4 * budget characters of the whole transcript exactly when no
  // earlier compaction cut into them.
  lemma SummaryIsFullExactly(calls: seq<Call>)
    requires ValidCalls(calls) && Batches(calls) != []
    ensures
      var bs := Batches(calls);
      var width := 4 * Final(bs).budget;
      SummaryOf(Run(calls)) == Last(Transcript(bs), width) <==> Reaches(bs, Min(width, |Transcript(bs)|)) || width == 0
  {
    var bs := Batches(calls);
    var width := 4 * Final(bs).budget;
    var x := Min(width, |Transcript(bs)|);
    SummaryIsTranscriptSuffix(calls);
    BatchesHaveText(calls);
    NonemptyTranscript(bs);
    assert |Last(Transcript(bs), width)| == x;
    assert |SummaryOf(Run(calls))| == Kept(bs) <= x;
    if width > 0 {
      KeptReaches(bs, x);
      if Kept(bs) == x {
        assert Last(Transcript(bs), x) == Last(Transcript(bs), width);
      }
    }
  }

  lemma ShrinkingBudgetsReach(bs: seq<Batch>, x: nat)
    requires bs != [] && NoEmptyText(bs) && Final(bs).budget > 0 && x <= 4 * Final(bs).budget
    requires forall i, j :: 0 <= i < j < |bs| ==> bs[i].budget >= bs[j].budget
    ensures Reaches(bs, x)
  {
    assert bs[..|bs|] == bs;
    forall j | 0 <= j < |bs| ensures Spares(bs, x, j) {
      LengthGrows(bs, j + 1, |bs|);
      assert bs[j].budget >= Final(bs).budget;
    }
  }

  lemma ShrinkingBudgetsKeepAll(calls: seq<Call>)
    requires ValidCalls(calls) && Batches(calls) != []
    requires forall i, j :: 0 <= i < j < |Batches(calls)| ==> Batches(calls)[i].budget >= Batches(calls)[j].budget
    ensures SummaryOf(Run(calls)) == Last(Transcript(Batches(calls)), 4 * Final(Batches(calls)).budget)
  {
    var bs := Batches(calls);
    BatchesHaveText(calls);
    if Final(bs).budget > 0 {
      ShrinkingBudgetsReach(bs, Min(4 * Final(bs).budget, |Transcript(bs)|));
    }
    SummaryIsFullExactly(calls);
  }

  // ----- Under one policy -----

  lemma {:induction false} SumTokensConcat(xs: seq<StmEntry>, ys: seq<StmEntry>)
    ensures SumTokens(xs + ys) == SumTokens(xs) + SumTokens(ys)
  {
    if xs == [] {
      assert xs + ys == ys;
    } else {
      SumTokensConcat(xs[1..], ys);
      assert (xs + ys)[1..] == xs[1..] + ys;
    }
  }

  // The tokens by which the retained window can shrink are in the entries that left it.
  lemma WindowShrinks(entries: seq<StmEntry>, n: nat, r: nat)
    requires 0 < r && n + r == |entries|
    ensures SumTokens(entries[..r]) <= SumTokens(entries[..n]) + SumTokens(entries[n..])
  {
    assert entries == entries[..n] + entries[n..];
    assert entries == entries[..r] + entries[r..];
    SumTokensConcat(entries[..n], entries[n..]);
    SumTokensConcat(entries[..r], entries[r..]);
  }

  // A budget can only grow by tokens that left the retained window, and their text is in the batch just compacted.
  lemma GrowthIsInTheBatch(c: Context, p: Policy)
    requires ValidPolicy(p) && Effective(c, p)
    requires forall i :: 0 <= i < |c.entries| ==> ValidEntry(c.entries[i])
    ensures 4 * BatchOf(c, p).budget <= 4 * Budget(c.entries[..p.retained], p) + |BatchOf(c, p).text|
  {
    var n := |c.entries| - p.retained;
    LinesAreLong(c.entries[..n]);
    WindowShrinks(c.entries, n, p.retained);
    assert Evicted(c, p) == c.entries[..n] && Retained(c, p) == c.entries[n..];
  }

  // What holds between compactions under one policy: the window retained last is still the front of the entries.
  predicate Anchored(calls: seq<Call>, p: Policy)
    requires ValidCalls(calls)
  {
    var bs := Batches(calls);
    bs != [] ==>
      && p.retained <= |Live(Run(calls))|
      && Final(bs).budget == Budget(Live(Run(calls))[..p.retained], p)
      && Kept(bs) == Min(4 * Final(bs).budget, |Transcript(bs)|)
  }

  predicate Under(calls: seq<Call>, p: Policy) {
    forall i :: 0 <= i < |calls| ==> calls[i].policy == p
  }

  lemma CommittedWindow(s: Shelf, p: Policy)
    requires ValidPolicy(p) && Effective(Fetch(s, p), p)
    ensures Live(Step(s, Call(p, Compact(Reliable)))) == Retained(Fetch(s, p), p)
    ensures Retained(Fetch(s, p), p)[..p.retained] == Retained(Fetch(s, p), p)
  {
  }

  // If the last batch holds the text by which the budget grew, everything within the new budget is still held.
  lemma WideEnough(bs: seq<Batch>, b: Batch)
    requires b.text != "" && NoEmptyText(bs)
    requires bs != [] ==> 4 * b.budget <= 4 * Final(bs).budget + |b.text|
    requires bs != [] ==> Kept(bs) == Min(4 * Final(bs).budget, |Transcript(bs)|)
    ensures Kept(bs + [b]) == Min(4 * b.budget, |Transcript(bs + [b])|)
  {
    TranscriptGrows(bs, b);
    if bs != [] {
      NonemptyTranscript(bs);
    }
  }

  lemma CommitAnchors(calls: seq<Call>, p: Policy)
    requires calls != [] && ValidCalls(calls) && Under(calls, p)
    requires Anchored(Init(calls), p) && Commits(Run(Init(calls)), Final(calls))
    ensures Anchored(calls, p)
  {
    var before := Run(Init(calls));
    var c := Fetch(before, p);
    var bs, b := Batches(Init(calls)), BatchOf(c, p);
    RunIsSound(Init(calls));
    FetchIsStored(before, p);
    CommittedWindow(before, p);
    GrowthIsInTheBatch(c, p);
    LinesAreLong(Evicted(c, p));
    BatchesHaveText(Init(calls));
    WideEnough(bs, b);
    assert Final(calls) == Call(p, Compact(Reliable));
    assert Batches(calls) == bs + [b] && Final(bs + [b]) == b;
  }

  lemma {:induction false} OnePolicyAnchors(calls: seq<Call>, p: Policy)
    requires ValidCalls(calls) && Under(calls, p)
    ensures Anchored(calls, p)
  {
    if calls == [] {
    } else {
      OnePolicyAnchors(Init(calls), p);
      var before := Run(Init(calls));
      RunIsSound(Init(calls));
      FetchIsStored(before, p);
      if Commits(before, Final(calls)) {
        CommitAnchors(calls, p);
      } else if Accepted(Final(calls).event) && Batches(calls) != [] {
        assert Live(Run(calls))[..p.retained] == Live(before)[..p.retained];
      }
    }
  }

  // A store opened with one policy never loses summary text early, whether its budgets grow or shrink: the summary
  // is exactly the last 4 * budget characters of the transcript of everything compacted.
  lemma OnePolicyRefinesTranscript(calls: seq<Call>, p: Policy)
    requires ValidCalls(calls) && Under(calls, p) && Batches(calls) != []
    ensures SummaryOf(Run(calls)) == Last(Transcript(Batches(calls)), 4 * Final(Batches(calls)).budget)
  {
    OnePolicyAnchors(calls, p);
    SummaryIsTranscriptSuffix(calls);
  }

  lemma RunExtends(calls: seq<Call>, call: Call)
    requires ValidCalls(calls) && ValidPolicy(call.policy)
    ensures ValidCalls(calls + [call]) && Run(calls + [call]) == Step(Run(calls), call)
    ensures Batches(calls + [call]) ==
      if Commits(Run(calls), call) then Batches(calls) + [BatchOf(Fetch(Run(calls), call.policy), call.policy)]
      else if Cleared(call.event) then []
      else Batches(calls)
  {
    assert Init(calls + [call]) == calls && Final(calls + [call]) == call;
  }

  const MESSAGE := StmEntry("user", "", 0)

  lemma AppendMessage(calls: seq<Call>, p: Policy) returns (longer: seq<Call>)
    requires ValidCalls(calls) && ValidPolicy(p)
    ensures ValidCalls(longer) && Batches(longer) == Batches(calls) && Live(Run(longer)) == Live(Run(calls)) + [MESSAGE]
  {
    longer := calls + [Call(p, Append(MESSAGE, false))];
    RunExtends(calls, Call(p, Append(MESSAGE, false)));
  }

  lemma MessageBatch(c: Context, p: Policy)
    requires ValidPolicy(p) && p.minEntries == 2 && p.retained == 1 && c.entries == [MESSAGE, MESSAGE]
    ensures Retained(c, p) == [MESSAGE] && BatchOf(c, p) == Batch("user: ", p.targetTokens)
  {
    assert Evicted(c, p) == [MESSAGE];
    assert Lines([MESSAGE]) == Line(MESSAGE) == "user: ";
    assert Retained(c, p) == [MESSAGE];
    assert SumTokens([MESSAGE]) == 0;
  }

  lemma CompactMessage(calls: seq<Call>, p: Policy) returns (longer: seq<Call>)
    requires ValidCalls(calls) && ValidPolicy(p) && p.minEntries == 2 && p.retained == 1
    requires Live(Run(calls)) == [MESSAGE, MESSAGE]
    ensures ValidCalls(longer) && Live(Run(longer)) == [MESSAGE]
    ensures Batches(longer) == Batches(calls) + [Batch("user: ", p.targetTokens)]
  {
    var s, call := Run(calls), Call(p, Compact(Reliable));
    longer := calls + [call];
    RunExtends(calls, call);
    CommittedWindow(s, p);
    MessageBatch(Fetch(s, p), p);
  }

  // The single policy matters: two empty messages compacted under a tight policy lose two characters that the wider
  // policy of the next compaction has room for.
  lemma PolicyChangeLosesText() returns (calls: seq<Call>)
    ensures ValidCalls(calls) && Batches(calls) != []
    ensures SummaryOf(Run(calls)) != Last(Transcript(Batches(calls)), 4 * Final(Batches(calls)).budget)
  {
    var tight, wide := Policy(2, 1, 2, 1), Policy(100, 50, 2, 1);
    calls := AppendMessage([], tight);
    calls := AppendMessage(calls, tight);
    calls := CompactMessage(calls, tight);
    calls := AppendMessage(calls, tight);
    calls := CompactMessage(calls, wide);
    var first, second := Batch("user: ", 1), Batch("user: ", 50);
    assert Batches(calls) == [] + [first] + [second];
    TranscriptGrows([], first);
    TranscriptGrows([] + [first], second);
    SummaryIsTranscriptSuffix(calls);
  }

  // ----- The token bound -----

  // A compaction brings the context within the target unless the retained entries alone exceed it, never above
  // what it was when the threshold triggered it, and leaves nothing for a second one to do.
  lemma CompactionMeetsTarget(s: Shelf, p: Policy, again: Fault)
    requires ValidPolicy(p) && Sound(s) && Effective(Fetch(s, p), p)
    ensures
      var c, after := Fetch(s, p), Step(s, Call(p, Compact(Reliable)));
      && (Fetch(after, p).tokenCount <= p.targetTokens || Fetch(after, p).tokenCount == SumTokens(Retained(c, p)))
      && (c.requiresCompaction ==> Fetch(after, p).tokenCount <= c.tokenCount)
      && !Fetch(after, p).requiresCompaction
      && Step(after, Call(p, Compact(again))) == after
  {
    var c := Fetch(s, p);
    var budget := Budget(Retained(c, p), p);
    var merged := Merge(c.summary, Lines(Evicted(c, p)));
    TrimIsLast(merged, budget);
    assert |Last(merged, 4 * budget)| <= 4 * budget;
    assert Compacted(c, p).tokenCount == Tokens(Last(merged, 4 * budget)) + SumTokens(Retained(c, p));
    assert c.entries == Evicted(c, p) + Retained(c, p);
    SumTokensConcat(Evicted(c, p), Retained(c, p));
  }

  lemma MergeEndsWith(existing: Option<string>, raw: string)
    requires raw != ""
    ensures |raw| <= |Merge(existing, raw)| && Last(Merge(existing, raw), |raw|) == raw
  {
    if Text(existing) != "" {
      LastOfPadded(existing.value + "\n\n", raw, |raw|);
    }
  }

  lemma TailOfTail(merged: string, raw: string, n: nat)
    requires |raw| <= |merged| && Last(merged, |raw|) == raw
    ensures Last(raw, n) == Last(Last(merged, n), |Last(raw, n)|)
  {
    if |raw| <= n {
      LastOfLast(merged, |raw|, n);
    } else {
      LastOfLast(merged, n, |raw|);
    }
  }

  lemma CompactedSummary(c: Context, p: Policy)
    requires ValidPolicy(p) && Effective(c, p)
    ensures Text(Compacted(c, p).summary) == Last(Merge(c.summary, Lines(Evicted(c, p))), 4 * Budget(Retained(c, p), p))
    ensures RecordOf(c, p).summary == Last(Lines(Evicted(c, p)), 4 * Budget(Retained(c, p), p))
  {
    TrimIsLast(Merge(c.summary, Lines(Evicted(c, p))), Budget(Retained(c, p), p));
    TrimIsLast(Lines(Evicted(c, p)), Budget(Retained(c, p), p));
  }

  // The summary put on the record is the part of the new rolling summary that the batch itself contributed.
  lemma RecordedSummaryIsRolledIn(s: Shelf, p: Policy)
    requires ValidPolicy(p) && Sound(s) && Effective(Fetch(s, p), p)
    ensures
      var after := Step(s, Call(p, Compact(Reliable)));
      var record := RecordOf(Fetch(s, p), p);
      && after.records == s.records + [record]
      && record.summary == Last(SummaryOf(after), |record.summary|)
  {
    var c := Fetch(s, p);
    var raw := Lines(Evicted(c, p));
    FetchIsStored(s, p);
    LinesAreLong(Evicted(c, p));
    MergeEndsWith(c.summary, raw);
    TailOfTail(Merge(c.summary, raw), raw, 4 * Budget(Retained(c, p), p));
    CompactedSummary(c, p);
    assert SummaryOf(Step(s, Call(p, Compact(Reliable)))) == Text(Compacted(c, p).summary);
  }

  // The counts on the record are those of the context before and after, and the trigger says whether the threshold
  // had been passed.
  lemma RecordedCountsAgree(s: Shelf, p: Policy)
    requires ValidPolicy(p) && Effective(Fetch(s, p), p)
    ensures
      var after := Step(s, Call(p, Compact(Reliable)));
      var record := RecordOf(Fetch(s, p), p);
      && record.preTokens == Fetch(s, p).tokenCount
      && record.postTokens == Fetch(after, p).tokenCount
      && (record.trigger == TokenThreshold <==> record.preTokens > p.maxTokens)
      && record.count == |record.refs| == |Live(s)| - |Live(after)|
      && record.retained == |Live(after)|
  {
    RefsLength(Evicted(Fetch(s, p), p));
    CommittedWindow(s, p);
  }

  // ----- Nothing appended is lost from the record -----

  lemma {:induction false} RefsLength(entries: seq<StmEntry>)
    ensures |Refs(entries)| == |entries|
  {
    if entries == [] {
    } else {
      RefsLength(entries[1..]);
    }
  }

  lemma {:induction false} RefsConcat(xs: seq<StmEntry>, ys: seq<StmEntry>)
    ensures Refs(xs + ys) == Refs(xs) + Refs(ys)
  {
    if xs == [] {
      assert xs + ys == ys;
    } else {
      RefsConcat(xs[1..], ys);
      assert (xs + ys)[0] == xs[0] && (xs + ys)[1..] == xs[1..] + ys;
      var first := [RefOf(xs[0])];
      assert first + (Refs(xs[1..]) + Refs(ys)) == (first + Refs(xs[1..])) + Refs(ys);
    }
  }

  // The references of the accepted appends, in order.
  function History(calls: seq<Call>): seq<SourceRef> {
    if calls == [] then []
    else History(Init(calls)) + (if Accepted(Final(calls).event) then [RefOf(Final(calls).event.entry)] else [])
  }

  function Recorded(records: seq<Record>): seq<SourceRef> {
    if records == [] then [] else Recorded(Init(records)) + Final(records).refs
  }

  predicate NeverCleared(calls: seq<Call>) {
    forall i :: 0 <= i < |calls| ==> !Cleared(calls[i].event)
  }

  // A compaction that put its record and then failed to put the context.
  predicate Torn(s: Shelf, call: Call) {
    call.event == Compact(ContextPutFails) && Effective(Fetch(s, call.policy), call.policy)
  }

  predicate EverTorn(calls: seq<Call>)
    requires ValidCalls(calls)
  {
    calls != [] && (Torn(Run(Init(calls)), Final(calls)) || EverTorn(Init(calls)))
  }

  lemma RecordedGrows(records: seq<Record>, r: Record)
    ensures Recorded(records + [r]) == Recorded(records) + r.refs
  {
    assert Init(records + [r]) == records && Final(records + [r]) == r;
  }

  lemma RefsSplit(entries: seq<StmEntry>, n: nat)
    requires n <= |entries|
    ensures Refs(entries) == Refs(entries[..n]) + Refs(entries[n..])
    ensures |Refs(entries[..n])| == n
  {
    assert entries == entries[..n] + entries[n..];
    RefsConcat(entries[..n], entries[n..]);
    RefsLength(entries[..n]);
  }

  lemma EvictedRefs(c: Context, p: Policy)
    requires ValidPolicy(p) && Effective(c, p)
    ensures Refs(c.entries) == RecordOf(c, p).refs + Refs(Retained(c, p))
    ensures RecordOf(c, p).refs != []
  {
    hide Lines, Trim, Compacted, SumTokens;
    assert RecordOf(c, p).refs == Refs(Evicted(c, p));
    RefsSplit(c.entries, |c.entries| - p.retained);
  }

  // The accounting of one call: what it adds to the recorded references and to the live ones.
  predicate Balanced(s: Shelf, s': Shelf, added: seq<SourceRef>) {
    Recorded(s'.records) + Refs(Live(s')) == Recorded(s.records) + Refs(Live(s)) + added
  }

  lemma AppendAccounts(s: Shelf, call: Call)
    requires ValidPolicy(call.policy) && Accepted(call.event)
    ensures Balanced(s, Step(s, call), [RefOf(call.event.entry)])
  {
    var entry := call.event.entry;
    assert Live(Step(s, call)) == Live(s) + [entry];
    RefsConcat(Live(s), [entry]);
    assert Refs([entry]) == [RefOf(entry)];
    var r, l, added := Recorded(s.records), Refs(Live(s)), [RefOf(entry)];
    assert r + (l + added) == r + l + added;
  }

  lemma Regroup<T>(a: seq<T>, b: seq<T>, c: seq<T>)
    ensures (a + b) + c == a + (b + c) == a + (b + c) + []
  {
  }

  lemma CompactAccounts(s: Shelf, p: Policy)
    requires ValidPolicy(p) && Effective(Fetch(s, p), p)
    ensures Balanced(s, Step(s, Call(p, Compact(Reliable))), [])
  {
    var c := Fetch(s, p);
    var s' := Step(s, Call(p, Compact(Reliable)));
    EvictedRefs(c, p);
    RecordedGrows(s.records, RecordOf(c, p));
    CommittedWindow(s, p);
    var r, evicted, l := Recorded(s.records), RecordOf(c, p).refs, Refs(Retained(c, p));
    assert s'.records == s.records + [RecordOf(c, p)];
    assert c.entries == Live(s);
    Regroup(r, evicted, l);
  }

  lemma StepAccounts(s: Shelf, call: Call)
    requires ValidPolicy(call.policy) && !Cleared(call.event)
    ensures !Torn(s, call) ==>
            Balanced(s, Step(s, call), if Accepted(call.event) then [RefOf(call.event.entry)] else [])
    ensures Torn(s, call) ==>
      var refs := RecordOf(Fetch(s, call.policy), call.policy).refs;
      refs != [] && Live(Step(s, call)) == Live(s) && Recorded(Step(s, call).records) == Recorded(s.records) + refs
  {
    if Accepted(call.event) {
      AppendAccounts(s, call);
    } else if Torn(s, call) {
      var record := RecordOf(Fetch(s, call.policy), call.policy);
      EvictedRefs(Fetch(s, call.policy), call.policy);
      assert Step(s, call) == s.(records := s.records + [record]);
      RecordedGrows(s.records, record);
    } else if Commits(s, call) {
      CompactAccounts(s, call.policy);
      assert call == Call(call.policy, Compact(Reliable));
    } else {
      assert Step(s, call) == s;
    }
  }

  predicate Accounted(calls: seq<Call>)
    requires ValidCalls(calls)
  {
    var recorded, live := Recorded(Run(calls).records), Refs(Live(Run(calls)));
    if EverTorn(calls) then
      |recorded| + |live| > |History(calls)| && multiset(History(calls)) <= multiset(recorded) + multiset(live)
    else recorded + live == History(calls)
  }

  lemma TornAccounts(calls: seq<Call>)
    requires calls != [] && ValidCalls(calls) && Torn(Run(Init(calls)), Final(calls)) && Accounted(Init(calls))
    ensures Accounted(calls)
  {
    var before, call := Run(Init(calls)), Final(calls);
    StepAccounts(before, call);
    var known, more := Recorded(before.records), RecordOf(Fetch(before, call.policy), call.policy).refs;
    assert multiset(known + more) == multiset(known) + multiset(more);
    assert multiset(known + Refs(Live(before))) == multiset(known) + multiset(Refs(Live(before)));
    assert |known + Refs(Live(before))| == |known| + |Refs(Live(before))|;
    assert History(calls) == History(Init(calls));
  }

  lemma WholeStepAccounts(calls: seq<Call>)
    requires calls != [] && ValidCalls(calls) && !Cleared(Final(calls).event)
    requires !Torn(Run(Init(calls)), Final(calls)) && Accounted(Init(calls))
    ensures Accounted(calls)
  {
    var before, after, call := Run(Init(calls)), Run(calls), Final(calls);
    StepAccounts(before, call);
    var added := if Accepted(call.event) then [RefOf(call.event.entry)] else [];
    var r, l, r', l' := Recorded(before.records), Refs(Live(before)), Recorded(after.records), Refs(Live(after));
    assert r' + l' == r + l + added;
    assert History(calls) == History(Init(calls)) + added;
    if EverTorn(calls) {
      assert |r' + l'| == |r| + |l| + |added|;
      assert multiset(r' + l') == multiset(r') + multiset(l');
      assert multiset(r + l + added) == multiset(r) + multiset(l) + multiset(added);
      assert multiset(History(calls)) == multiset(History(Init(calls))) + multiset(added);
    }
  }

  lemma {:induction false} Accounting(calls: seq<Call>)
    requires ValidCalls(calls) && NeverCleared(calls)
    ensures Accounted(calls)
  {
    if calls == [] {
    } else {
      Accounting(Init(calls));
      if Torn(Run(Init(calls)), Final(calls)) {
        TornAccounts(calls);
      } else {
        WholeStepAccounts(calls);
      }
    }
  }

  // The references of the entries that were live when a clear removed them.
  function Forgotten(calls: seq<Call>): seq<SourceRef>
    requires ValidCalls(calls)
  {
    if calls == [] then []
    else
      Forgotten(Init(calls)) + (if Cleared(Final(calls).event) then Refs(Live(Run(Init(calls)))) else [])
  }

  function Held(calls: seq<Call>): multiset<SourceRef>
    requires ValidCalls(calls)
  {
    multiset(Recorded(Run(calls).records)) + multiset(Refs(Live(Run(calls)))) + multiset(Forgotten(calls))
  }

  predicate Balances(calls: seq<Call>)
    requires ValidCalls(calls)
  {
    if EverTorn(calls) then multiset(History(calls)) < Held(calls) else multiset(History(calls)) == Held(calls)
  }

  lemma ClearBalances(calls: seq<Call>)
    requires calls != [] && ValidCalls(calls) && Cleared(Final(calls).event)
    ensures Held(calls) == Held(Init(calls)) && History(calls) == History(Init(calls))
    ensures EverTorn(calls) <==> EverTorn(Init(calls))
  {
    var before := Run(Init(calls));
    assert Run(calls) == before.(stored := None);
    assert multiset(Forgotten(Init(calls)) + Refs(Live(before))) ==
           multiset(Forgotten(Init(calls))) + multiset(Refs(Live(before)));
  }

  lemma TornHeld(calls: seq<Call>) returns (more: seq<SourceRef>)
    requires calls != [] && ValidCalls(calls) && Torn(Run(Init(calls)), Final(calls))
    ensures more != [] && Held(calls) == Held(Init(calls)) + multiset(more)
  {
    var before, call := Run(Init(calls)), Final(calls);
    StepAccounts(before, call);
    more := RecordOf(Fetch(before, call.policy), call.policy).refs;
    var r, l, gone := Recorded(before.records), multiset(Refs(Live(before))), multiset(Forgotten(Init(calls)));
    assert multiset(r + more) == multiset(r) + multiset(more);
    assert Held(calls) == multiset(r + more) + l + gone;
    assert Held(Init(calls)) == multiset(r) + l + gone;
  }

  lemma TornBalances(calls: seq<Call>)
    requires calls != [] && ValidCalls(calls) && Torn(Run(Init(calls)), Final(calls)) && Balances(Init(calls))
    ensures Balances(calls)
  {
    var more := TornHeld(calls);
    assert History(calls) == History(Init(calls)) && EverTorn(calls);
    assert more[0] in multiset(more);
    Outgrows(multiset(History(calls)), Held(Init(calls)), multiset(more));
  }

  lemma Outgrows(h: multiset<SourceRef>, k: multiset<SourceRef>, more: multiset<SourceRef>)
    requires (h == k || h < k) && more != multiset{}
    ensures h < k + more
  {
    var x :| x in more;
    assert (k + more)[x] > h[x];
  }

  lemma MoreHeld(r: seq<SourceRef>, l: seq<SourceRef>, r': seq<SourceRef>, l': seq<SourceRef>, added: seq<SourceRef>)
    requires r' + l' == r + l + added
    ensures multiset(r') + multiset(l') == multiset(r) + multiset(l) + multiset(added)
  {
    assert multiset(r' + l') == multiset(r') + multiset(l');
    assert multiset(r + l + added) == multiset(r) + multiset(l) + multiset(added);
  }

  lemma HistoryGrows(calls: seq<Call>, added: seq<SourceRef>)
    requires calls != []
    requires added == if Accepted(Final(calls).event) then [RefOf(Final(calls).event.entry)] else []
    ensures multiset(History(calls)) == multiset(History(Init(calls))) + multiset(added)
  {
    assert History(calls) == History(Init(calls)) + added;
  }

  lemma Shift(h: multiset<SourceRef>, k: multiset<SourceRef>, added: multiset<SourceRef>)
    ensures h == k ==> h + added == k + added
    ensures h < k ==> h + added < k + added
  {
    if h < k {
      assert (h + added) - added == h && (k + added) - added == k;
    }
  }

  lemma HeldGrows(calls: seq<Call>, added: seq<SourceRef>)
    requires calls != [] && ValidCalls(calls) && !Cleared(Final(calls).event)
    requires Balanced(Run(Init(calls)), Run(calls), added)
    ensures Held(calls) == Held(Init(calls)) + multiset(added)
  {
    var before, after := Run(Init(calls)), Run(calls);
    var r, l, r', l' := Recorded(before.records), Refs(Live(before)), Recorded(after.records), Refs(Live(after));
    var gone := multiset(Forgotten(Init(calls)));
    MoreHeld(r, l, r', l', added);
    assert Forgotten(calls) == Forgotten(Init(calls));
    assert (multiset(r) + multiset(l) + multiset(added)) + gone == (multiset(r) + multiset(l) + gone) + multiset(added);
    assert Held(calls) == (multiset(r') + multiset(l')) + gone;
    assert Held(Init(calls)) == multiset(r) + multiset(l) + gone;
  }

  lemma WholeStepBalances(calls: seq<Call>)
    requires calls != [] && ValidCalls(calls) && !Cleared(Final(calls).event)
    requires !Torn(Run(Init(calls)), Final(calls)) && Balances(Init(calls))
    ensures Balances(calls)
  {
    var call := Final(calls);
    var added := if Accepted(call.event) then [RefOf(call.event.entry)] else [];
    StepAccounts(Run(Init(calls)), call);
    HeldGrows(calls, added);
    HistoryGrows(calls, added);
    Shift(multiset(History(Init(calls))), Held(Init(calls)), multiset(added));
    assert EverTorn(calls) <==> EverTorn(Init(calls));
  }

  lemma {:induction false} EveryRunBalances(calls: seq<Call>)
    requires ValidCalls(calls)
    ensures Balances(calls)
  {
    if calls == [] {
    } else {
      EveryRunBalances(Init(calls));
      if Cleared(Final(calls).event) {
        ClearBalances(calls);
      } else if Torn(Run(Init(calls)), Final(calls)) {
        TornBalances(calls);
      } else {
        WholeStepBalances(calls);
      }
    }
  }

  // Every appended entry is on record, live, or was live when a clear took it away, whatever fails, and it is exactly
  // one of these unless a compaction was torn between its two writes.
  lemma NothingIsLost(calls: seq<Call>)
    requires ValidCalls(calls)
    ensures
      var held := multiset(Recorded(Run(calls).records)) + multiset(Refs(Live(Run(calls)))) +
                  multiset(Forgotten(calls));
      multiset(History(calls)) <= held && (multiset(History(calls)) == held <==> !EverTorn(calls))
  {
    EveryRunBalances(calls);
  }

  // Without a clear, records followed by live entries spell out the appends in order exactly when no compaction was
  // torn. ClearForgets says that this is so after a clear for what follows it.
  lemma RecordsSpellHistory(calls: seq<Call>)
    requires ValidCalls(calls) && NeverCleared(calls)
    ensures Recorded(Run(calls).records) + Refs(Live(Run(calls))) == History(calls) <==> !EverTorn(calls)
  {
    Accounting(calls);
    var recorded, live := Recorded(Run(calls).records), Refs(Live(Run(calls)));
    assert |recorded + live| == |recorded| + |live|;
  }

  // ----- What the texts are made of -----

  lemma LinesCons(e: StmEntry, rest: seq<StmEntry>)
    requires rest != []
    ensures Lines([e] + rest) == Line(e) + "\n" + Lines(rest)
  {
    assert ([e] + rest)[1..] == rest;
  }

  lemma JoinThree(a: string, b: string, c: string)
    ensures a + "\n" + (b + "\n" + c) == (a + "\n" + b) + "\n" + c
  {
  }

  // A batch is written oldest message first, one line for each, and a line is the role and the content.
  lemma {:induction false} LinesConcat(xs: seq<StmEntry>, ys: seq<StmEntry>)
    requires ys != []
    ensures Lines([]) == "" && Lines([ys[0]]) == ys[0].role + ": " + ys[0].content
    ensures Lines(xs + ys) == if xs == [] then Lines(ys) else Lines(xs) + "\n" + Lines(ys)
  {
    if xs == [] {
      assert xs + ys == ys;
    } else {
      var x, rest := xs[0], xs[1..];
      assert xs == [x] + rest && xs + ys == [x] + (rest + ys);
      LinesConcat(rest, ys);
      LinesCons(x, rest + ys);
      if rest != [] {
        LinesCons(x, rest);
        JoinThree(Line(x), Lines(rest), Lines(ys));
      } else {
        assert rest + ys == ys && Lines([x]) == Line(x);
      }
      hide Lines, Line;
    }
  }

  // A text counts a token for every four characters, the last of them possibly incomplete.
  lemma TokensExactly(e: StmEntry)
    ensures |e.content| <= 4 * SumTokens([e]) < |e.content| + 4
  {
    assert [e][1..] == [];
  }

  // The context a reader gets: the live entries and the summary, what they count, and whether that calls for a
  // compaction.
  lemma ContextReports(s: Shelf, p: Policy)
    requires Sound(s)
    ensures
      var c := Fetch(s, p);
      && c.entries == Live(s) && c.summary == (if SummaryOf(s) == "" then None else Some(SummaryOf(s)))
      && |SummaryOf(s)| <= 4 * (c.tokenCount - SumTokens(Live(s))) < |SummaryOf(s)| + 4
      && (c.requiresCompaction <==> c.tokenCount > p.maxTokens && |Live(s)| >= p.minEntries)
  {
    FetchIsStored(s, p);
  }

  lemma {:induction false} RefsInOrder(entries: seq<StmEntry>)
    ensures |Refs(entries)| == |entries|
    ensures forall i :: 0 <= i < |entries| ==>
      Refs(entries)[i] == SourceRef(entries[i].timestamp, entries[i].role, Sha256(entries[i].content))
  {
    if entries != [] {
      RefsInOrder(entries[1..]);
    }
  }

  // The characters that the target leaves for a summary beside these entries.
  function Room(kept: seq<StmEntry>, p: Policy): nat {
    if SumTokens(kept) < p.targetTokens then 4 * (p.targetTokens - SumTokens(kept)) else 0
  }

  lemma RoomIsBudget(c: Context, p: Policy)
    requires ValidPolicy(p) && Effective(c, p)
    ensures 4 * Budget(Retained(c, p), p) == Room(c.entries[|c.entries| - p.retained..], p)
  {
  }

  lemma SummaryAfter(s: Shelf, p: Policy, gone: seq<StmEntry>, kept: seq<StmEntry>)
    requires ValidPolicy(p) && Sound(s) && |Live(s)| >= p.minEntries
    requires gone == Live(s)[..|Live(s)| - p.retained] && kept == Live(s)[|Live(s)| - p.retained..]
    ensures SummaryOf(Step(s, Call(p, Compact(Reliable)))) ==
            Last(if SummaryOf(s) == "" then Lines(gone) else SummaryOf(s) + "\n\n" + Lines(gone), Room(kept, p))
  {
    var c := Fetch(s, p);
    FetchIsStored(s, p);
    CompactedSummary(c, p);
    RoomIsBudget(c, p);
    LinesAreLong(gone);
    assert Step(s, Call(p, Compact(Reliable))).stored == Some(Compacted(c, p));
    assert Merge(c.summary, Lines(gone)) ==
      if SummaryOf(s) == "" then Lines(gone) else SummaryOf(s) + "\n\n" + Lines(gone);
    hide Lines, SumTokens, Compacted, Step;
  }

  // What the record of evicted entries holds of them.
  ghost predicate RecordsEntries(r: Record, gone: seq<StmEntry>, room: nat) {
    && r.summary == Last(Lines(gone), room) && |r.refs| == |gone|
    && forall i :: 0 <= i < |gone| ==>
         r.refs[i] == SourceRef(gone[i].timestamp, gone[i].role, Sha256(gone[i].content))
  }

  lemma RecordHoldsEntries(c: Context, p: Policy)
    requires ValidPolicy(p) && Effective(c, p)
    ensures RecordsEntries(RecordOf(c, p), c.entries[..|c.entries| - p.retained],
                           Room(c.entries[|c.entries| - p.retained..], p))
  {
    CompactedSummary(c, p);
    RoomIsBudget(c, p);
    RefsInOrder(Evicted(c, p));
    assert RecordOf(c, p).refs == Refs(Evicted(c, p));
  }

  lemma RecordAfter(s: Shelf, p: Policy)
    requires ValidPolicy(p) && Sound(s) && |Live(s)| >= p.minEntries
    ensures
      var after := Step(s, Call(p, Compact(Reliable)));
      var cut := |Live(s)| - p.retained;
      && Live(after) == Live(s)[cut..] && after.records != [] && Init(after.records) == s.records
      && RecordsEntries(Final(after.records), Live(s)[..cut], Room(Live(s)[cut..], p))
  {
    FetchIsStored(s, p);
    var c := Fetch(s, p);
    CommittedWindow(s, p);
    RecordHoldsEntries(c, p);
    assert Step(s, Call(p, Compact(Reliable))).records == s.records + [RecordOf(c, p)];
  }

  // One compaction, in terms of the entries and the summary it finds. Below the minimum nothing happens. Otherwise all
  // but the last entries go; the summary gets their lines and keeps, of the end of both, what the target has room for
  // beside the entries that stay; the record holds the lines and the references of the entries that went.
  lemma CompactionExactly(s: Shelf, p: Policy)
    requires ValidPolicy(p) && Sound(s)
    ensures |Live(s)| < p.minEntries ==> Step(s, Call(p, Compact(Reliable))) == s
    ensures |Live(s)| >= p.minEntries ==>
      var after := Step(s, Call(p, Compact(Reliable)));
      var cut := |Live(s)| - p.retained;
      var gone, kept := Live(s)[..cut], Live(s)[cut..];
      && Live(after) == kept
      && SummaryOf(after) ==
           Last(if SummaryOf(s) == "" then Lines(gone) else SummaryOf(s) + "\n\n" + Lines(gone), Room(kept, p))
      && after.records != [] && Init(after.records) == s.records
      && RecordsEntries(Final(after.records), gone, Room(kept, p))
  {
    FetchIsStored(s, p);
    if |Live(s)| >= p.minEntries {
      var cut := |Live(s)| - p.retained;
      SummaryAfter(s, p, Live(s)[..cut], Live(s)[cut..]);
      RecordAfter(s, p);
    }
  }

  // ----- The transcript spells out the appends -----

  // The entries appended since the last clear.
  function Appended(calls: seq<Call>): seq<StmEntry> {
    if calls == [] || Cleared(Final(calls).event) then []
    else Appended(Init(calls)) + (if Accepted(Final(calls).event) then [Final(calls).event.entry] else [])
  }

  function Concat(chunks: seq<seq<StmEntry>>): seq<StmEntry> {
    if chunks == [] then [] else Concat(Init(chunks)) + Final(chunks)
  }

  ghost predicate Spells(calls: seq<Call>, chunks: seq<seq<StmEntry>>)
    requires ValidCalls(calls)
  {
    && |chunks| == |Batches(calls)| && (forall i :: 0 <= i < |chunks| ==> Batches(calls)[i].text == Lines(chunks[i]))
    && Concat(chunks) + Live(Run(calls)) == Appended(calls)
  }

  lemma CommitTexts(calls: seq<Call>, chunks: seq<seq<StmEntry>>, gone: seq<StmEntry>)
    requires calls != [] && ValidCalls(calls) && Commits(Run(Init(calls)), Final(calls)) && Spells(Init(calls), chunks)
    requires gone == Evicted(Fetch(Run(Init(calls)), Final(calls).policy), Final(calls).policy)
    ensures
      var longer := chunks + [gone];
      && |longer| == |Batches(calls)|
      && forall i :: 0 <= i < |longer| ==> Batches(calls)[i].text == Lines(longer[i])
  {
    var c := Fetch(Run(Init(calls)), Final(calls).policy);
    CommittedSummary(calls, c, BatchOf(c, Final(calls).policy));
    hide Lines, Run, Fetch;
  }

  lemma CommitEntries(s: Shelf, p: Policy, before: seq<StmEntry>, all: seq<StmEntry>)
    requires ValidPolicy(p) && Effective(Fetch(s, p), p) && before + Live(s) == all
    ensures (before + Evicted(Fetch(s, p), p)) + Live(Step(s, Call(p, Compact(Reliable)))) == all
  {
    CommittedWindow(s, p);
    assert Live(s) == Evicted(Fetch(s, p), p) + Retained(Fetch(s, p), p);
  }

  lemma CommitSpells(calls: seq<Call>, chunks: seq<seq<StmEntry>>) returns (longer: seq<seq<StmEntry>>)
    requires calls != [] && ValidCalls(calls) && Commits(Run(Init(calls)), Final(calls)) && Spells(Init(calls), chunks)
    ensures Spells(calls, longer)
  {
    var before, p := Run(Init(calls)), Final(calls).policy;
    var gone := Evicted(Fetch(before, p), p);
    assert Final(calls) == Call(p, Compact(Reliable)) && Appended(calls) == Appended(Init(calls));
    CommitTexts(calls, chunks, gone);
    CommitEntries(before, p, Concat(chunks), Appended(calls));
    longer := chunks + [gone];
    assert Init(longer) == chunks && Concat(longer) == Concat(chunks) + gone;
    assert Run(calls) == Step(before, Final(calls));
    hide Step, Batches, Lines, Fetch, Evicted, Concat, Appended, Run;
  }

  // The batches of the transcript are the lines of consecutive runs of the entries appended since the last clear, from
  // the first of them on, and the live entries are the rest: nothing is left out, doubled or put in another order.
  lemma {:induction false} TranscriptSpellsAppends(calls: seq<Call>) returns (chunks: seq<seq<StmEntry>>)
    requires ValidCalls(calls)
    ensures |chunks| == |Batches(calls)|
    ensures forall i :: 0 <= i < |chunks| ==> Batches(calls)[i].text == Lines(chunks[i])
    ensures Concat(chunks) + Live(Run(calls)) == Appended(calls)
  {
    if calls == [] {
      chunks := [];
    } else {
      var before, call := Run(Init(calls)), Final(calls);
      chunks := TranscriptSpellsAppends(Init(calls));
      if Commits(before, call) {
        chunks := CommitSpells(calls, chunks);
      } else {
        OtherwiseSummaryStays(calls);
        if Cleared(call.event) {
          chunks := [];
        } else if Accepted(call.event) {
          assert Live(Run(calls)) == Live(before) + [call.event.entry];
          assert (Concat(chunks) + Live(before)) + [call.event.entry] == Concat(chunks) + Live(Run(calls));
        } else {
          assert Live(Run(calls)) == Live(before);
        }
      }
    }
  }

  // ----- The store -----  // ----- The store -----

  function Tagged(records: seq<(ProjectId, Record)>, project: ProjectId): seq<Record> {
    if records == [] then []
    else Tagged(Init(records), project) + (if Final(records).0 == project then [Final(records).1] else [])
  }

  lemma TaggedAppend(records: seq<(ProjectId, Record)>, owner: ProjectId, r: Record)
    ensures Tagged(records + [(owner, r)], owner) == Tagged(records, owner) + [r]
    ensures forall q: ProjectId :: q != owner ==> Tagged(records + [(owner, r)], q) == Tagged(records, q)
  {
    assert Init(records + [(owner, r)]) == records;
    forall q: ProjectId | q != owner ensures Tagged(records + [(owner, r)], q) == Tagged(records, q) {
      assert Tagged(records + [(owner, r)], q) == Tagged(records, q) + [];
    }
  }

  // The part of a compaction that only computes.
  method Summarize(context: Context, policy: Policy) returns (updated: Context, record: Record)
    requires ValidPolicy(policy) && Effective(context, policy)
    ensures updated == Compacted(context, policy)
    ensures record == RecordOf(context, policy)
  {
    var retained := context.entries[|context.entries| - policy.retained..];
    var compacted := context.entries[..|context.entries| - policy.retained];
    assert retained == Retained(context, policy) && compacted == Evicted(context, policy);
    var retainedTokens := SumTokens(retained);
    var budget := if retainedTokens < policy.targetTokens then policy.targetTokens - retainedTokens else 0;
    assert budget == Budget(retained, policy);
    var raw := Lines(compacted);
    var storedSummary := Trim(raw, budget);
    var mergedSummary := Trim(Merge(context.summary, raw), budget);
    updated := Build(retained, mergedSummary, policy);
    assert updated == Compacted(context, policy);
    var trigger := if context.requiresCompaction then TokenThreshold else Manual;
    record := Record(Text(storedSummary), Refs(compacted), |compacted|, trigger,
                     context.tokenCount, updated.tokenCount, |retained|);
  }

  // A compaction, write by write.
  lemma CompactionSteps(s: Shelf, p: Policy, fault: Fault)
    requires ValidPolicy(p)
    ensures
      var c := Fetch(s, p);
      Step(s, Call(p, Compact(fault))) ==
        if |c.entries| < p.minEntries || fault == RecordPutFails then s
        else Shelf(if fault == Reliable then Some(Compacted(c, p)) else s.stored, s.records + [RecordOf(c, p)])
  {
  }

  // The store over its two collections. A put or delete fails when the call says so.
  class DocumentStmStore {
    const policy: Policy
    var documents: map<ProjectId, Context>
    var records: seq<(ProjectId, Record)>

    constructor (policy: Policy)
      requires ValidPolicy(policy)
      ensures this.policy == policy
      ensures forall q: ProjectId :: View(q) == EMPTY
    {
      this.policy := policy;
      documents, records := map[], [];
    }

    ghost function View(project: ProjectId): Shelf
      reads this
    {
      Shelf(if project in documents then Some(documents[project]) else None, Tagged(records, project))
    }

    method GetContext(project: ProjectId) returns (context: Context)
      ensures context == Fetch(View(project), policy)
    {
      if project !in documents {
        return Build([], None, policy);
      }
      context := Build(documents[project].entries, documents[project].summary, policy);
    }

    method AppendEntry(project: ProjectId, entry: StmEntry, putFails: bool) returns (ok: bool)
      requires ValidPolicy(policy)
      modifies this
      ensures View(project) == Step(old(View(project)), Call(policy, Append(entry, putFails)))
      ensures forall q: ProjectId :: q != project ==> View(q) == old(View(q))
      ensures ok <==> entry.role in {"user", "assistant", "system", "tool"} && !putFails
    {
      if !ValidEntry(entry) {
        return false;
      }
      var context := GetContext(project);
      var updated := Build(context.entries + [entry], context.summary, policy);
      if putFails {
        return false;
      }
      documents := documents[project := updated];
      ok := true;
    }

    method CompactProject(project: ProjectId, fault: Fault) returns (ok: bool)
      requires ValidPolicy(policy)
      modifies this
      ensures View(project) == Step(old(View(project)), Call(policy, Compact(fault)))
      ensures forall q: ProjectId :: q != project ==> View(q) == old(View(q))
      ensures ok == (fault == Reliable || !Effective(Fetch(old(View(project)), policy), policy))
    {
      CompactionSteps(View(project), policy, fault);
      hide Step, Fetch, Tagged, Compacted, RecordOf;
      var context := GetContext(project);
      if |context.entries| < policy.minEntries {
        return true;
      }
      var updated, record := Summarize(context, policy);
      ghost var before := View(project);
      if fault == RecordPutFails {
        return false;
      }
      TaggedAppend(records, project, record);
      records := records + [(project, record)];
      assert View(project) == before.(records := before.records + [record]);
      if fault == ContextPutFails {
        return false;
      }
      documents := documents[project := updated];
      assert View(project) == Shelf(Some(updated), before.records + [record]);
      ok := true;
    }

    method ClearProject(project: ProjectId, deleteFails: bool) returns (ok: bool)
      requires ValidPolicy(policy)
      modifies this
      ensures View(project) == Step(old(View(project)), Call(policy, Clear(deleteFails)))
      ensures forall q: ProjectId :: q != project ==> View(q) == old(View(q))
      ensures ok == !deleteFails
      ensures ok ==> project !in documents && records == old(records)
    {
      if deleteFails {
        return false;
      }
      documents := documents - {project};
      ok := true;
    }
  }
}
