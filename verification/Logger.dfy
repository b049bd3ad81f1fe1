/**
 * The logger: channels that cache whether they are enabled, and egress slots that are shut off when they keep
 * failing.
 *
 * An egress is known by its name; which egresses throw on a given entry is an input of the call that emits it.
 */
module Logger {
  import opened Memory

  // ----- Namespaces: nous: and words over [a-z0-9] separated by single colons or hyphens -----

  predicate WordChar(c: char) {
    'a' <= c <= 'z' || '0' <= c <= '9'
  }

  predicate Separator(c: char) {
    c == ':' || c == '-'
  }

  // The rest of a namespace; inWord says whether a word has begun.
  predicate Words(s: string, inWord: bool) {
    if s == "" then inWord
    else if WordChar(s[0]) then Words(s[1..], true)
    else inWord && Separator(s[0]) && Words(s[1..], false)
  }

  predicate ValidNamespace(s: string) {
    "nous:" <= s && Words(s[5..], false)
  }

  // What the pattern says of a string: small letters and digits, and single colons and hyphens between them.
  predicate Separated(s: string) {
    forall i :: 0 <= i < |s| && !SmallOrDigit(s, i) ==>
      (s[i] == ':' || s[i] == '-') && 0 < i < |s| - 1 && SmallOrDigit(s, i - 1) && SmallOrDigit(s, i + 1)
  }

  predicate SmallOrDigit(s: string, i: nat)
    requires i < |s|
  {
    s[i] in {'0', '1', '2', '3', '4', '5', '6', '7', '8', '9'} || 97 <= s[i] as int <= 122
  }

  lemma {:induction false} WordsExactly(s: string, before: string)
    requires s != "" && (before == "" || WordChar(before[|before| - 1]) || Separator(before[|before| - 1]))
    ensures Words(s, before != "" && WordChar(before[|before| - 1])) <==>
      && (forall i :: 0 <= i < |s| ==> WordChar(s[i]) || Separator(s[i]))
      && (forall i :: 0 < i < |s| && !WordChar(s[i]) ==> i < |s| - 1 && WordChar(s[i - 1]) && WordChar(s[i + 1]))
      && (!WordChar(s[0]) ==> 1 < |s| && before != "" && WordChar(before[|before| - 1]) && WordChar(s[1]))
  {
    var inWord := before != "" && WordChar(before[|before| - 1]);
    var next := before + [s[0]];
    if |s| == 1 {
      assert s[1..] == "";
    } else if WordChar(s[0]) || Separator(s[0]) {
      var rest := s[1..];
      WordsExactly(rest, next);
      assert Words(s, inWord) <==> (WordChar(s[0]) || inWord) && Words(rest, WordChar(s[0]));
      assert forall i :: 0 <= i < |rest| ==> rest[i] == s[i + 1];
      assert forall i :: 0 < i < |s| ==> s[i] == rest[i - 1];
    }
  }

  lemma SeparatedExactly(s: string)
    ensures Separated(s) <==>
              && (forall i :: 0 <= i < |s| ==> WordChar(s[i]) || Separator(s[i]))
              && (forall i :: 0 <= i < |s| && !WordChar(s[i]) ==>
                    0 < i < |s| - 1 && WordChar(s[i - 1]) && WordChar(s[i + 1]))
  {
    assert forall i :: 0 <= i < |s| ==> (SmallOrDigit(s, i) <==> WordChar(s[i]));
  }

  // The names that are accepted.
  lemma NamespaceExactly(s: string)
    ensures ValidNamespace(s) <==> "nous:" <= s && |s| > 5 && Separated(s[5..])
  {
    if "nous:" <= s && |s| > 5 {
      WordsExactly(s[5..], "");
      SeparatedExactly(s[5..]);
    }
  }

  // ----- Enabling by longest configured prefix -----

  type ChannelConfig = seq<(string, bool)>

  // An object's own keys: each pattern once.
  ghost predicate DistinctPatterns(config: ChannelConfig) {
    forall i, j :: 0 <= i < j < |config| ==> config[i].0 != config[j].0
  }

  function AsMap(config: ChannelConfig): map<string, bool> {
    if config == [] then map[] else AsMap(config[..|config| - 1])[config[|config| - 1].0 := config[|config| - 1].1]
  }

  predicate Covers(pattern: string, namespace: string) {
    namespace == pattern || pattern + ":" <= namespace || pattern + "-" <= namespace
  }

  predicate Boundary(namespace: string, n: nat)
    requires n <= |namespace|
  {
    n == |namespace| || Separator(namespace[n])
  }

  // The value of the longest nonempty configured prefix, of at most n characters, that ends at a word boundary.
  function LongestPrefix(config: map<string, bool>, namespace: string, n: nat): bool
    requires n <= |namespace|
  {
    if n == 0 then true
    else if namespace[..n] in config && Boundary(namespace, n) then config[namespace[..n]]
    else LongestPrefix(config, namespace, n - 1)
  }

  function Enabled(config: map<string, bool>, namespace: string): bool {
    LongestPrefix(config, namespace, |namespace|)
  }

  lemma CoversExactly(pattern: string, namespace: string)
    ensures Covers(pattern, namespace) <==>
      |pattern| <= |namespace| && namespace[..|pattern|] == pattern && Boundary(namespace, |pattern|)
  {
    var n := |pattern|;
    if n < |namespace| {
      assert namespace[..n + 1] == namespace[..n] + [namespace[n]];
    }
    if pattern + ":" <= namespace || pattern + "-" <= namespace {
      assert namespace[..n] == pattern;
    }
  }

  lemma {:induction false} AsMapContents(config: ChannelConfig)
    requires DistinctPatterns(config)
    ensures forall i :: 0 <= i < |config| ==> config[i].0 in AsMap(config) && AsMap(config)[config[i].0] == config[i].1
    ensures forall p :: p in AsMap(config) ==> exists i :: 0 <= i < |config| && config[i].0 == p
  {
    if config == [] {
    } else {
      AsMapContents(config[..|config| - 1]);
    }
  }

  // Listing the same entries in another order configures the same map.
  lemma ConfigOrderIsIrrelevant(config: ChannelConfig, shuffled: ChannelConfig)
    requires DistinctPatterns(config) && DistinctPatterns(shuffled)
    requires multiset(config) == multiset(shuffled)
    ensures AsMap(config) == AsMap(shuffled)
  {
    SameEntries(config, shuffled);
    SameEntries(shuffled, config);
    AsMapContents(config);
    AsMapContents(shuffled);
  }

  lemma SameEntries(config: ChannelConfig, shuffled: ChannelConfig)
    requires DistinctPatterns(config) && DistinctPatterns(shuffled)
    requires multiset(config) == multiset(shuffled)
    ensures forall p :: p in AsMap(config) ==> p in AsMap(shuffled) && AsMap(shuffled)[p] == AsMap(config)[p]
  {
    AsMapContents(config);
    AsMapContents(shuffled);
    forall p | p in AsMap(config) ensures p in AsMap(shuffled) && AsMap(shuffled)[p] == AsMap(config)[p] {
      var i :| 0 <= i < |config| && config[i].0 == p;
      assert config[i] in multiset(shuffled);
    }
  }

  // What the reference definition means: the default applies exactly when no nonempty pattern covers the namespace,
  // and otherwise the longest covering pattern decides.
  lemma {:induction false} LongestPrefixDecides(config: map<string, bool>, namespace: string, n: nat, pattern: string)
    requires n <= |namespace| && 0 < |pattern| <= n && pattern in config && Covers(pattern, namespace)
    requires forall p :: p in config && Covers(p, namespace) ==> |p| <= |pattern|
    ensures LongestPrefix(config, namespace, n) == config[pattern]
  {
    CoversExactly(pattern, namespace);
    if n == |pattern| {
    } else {
      CoversExactly(namespace[..n], namespace);
      assert |namespace[..n]| == n;
      LongestPrefixDecides(config, namespace, n - 1, pattern);
    }
  }

  lemma {:induction false} DefaultIsEnabled(config: map<string, bool>, namespace: string, n: nat)
    requires n <= |namespace|
    requires forall p :: p in config && Covers(p, namespace) ==> p == ""
    ensures LongestPrefix(config, namespace, n)
  {
    if n == 0 {
    } else {
      CoversExactly(namespace[..n], namespace);
      assert |namespace[..n]| == n;
      DefaultIsEnabled(config, namespace, n - 1);
    }
  }

  // Whether best is the pattern the loop should hold after looking at the entries of config.
  ghost predicate BestSoFar(config: ChannelConfig, namespace: string, best: string, value: bool) {
    && (forall i :: 0 <= i < |config| && Covers(config[i].0, namespace) ==> |config[i].0| <= |best|)
    && (if best == "" then value
        else exists i :: 0 <= i < |config| && config[i] == (best, value) && Covers(best, namespace))
  }

  lemma BestDecides(config: ChannelConfig, namespace: string, best: string, value: bool)
    requires DistinctPatterns(config) && BestSoFar(config, namespace, best, value)
    ensures value == Enabled(AsMap(config), namespace)
  {
    AsMapContents(config);
    if best == "" {
      DefaultIsEnabled(AsMap(config), namespace, |namespace|);
    } else {
      CoversExactly(best, namespace);
      LongestPrefixDecides(AsMap(config), namespace, |namespace|, best);
    }
  }

  method ResolveChannelEnabled(config: ChannelConfig, namespace: string) returns (enabled: bool)
    requires DistinctPatterns(config)
    ensures enabled == Enabled(AsMap(config), namespace)
  {
    var bestPrefix := "";
    enabled := true;
    for i := 0 to |config|
      invariant BestSoFar(config[..i], namespace, bestPrefix, enabled)
    {
      var (pattern, value) := config[i];
      assert config[..i + 1] == config[..i] + [config[i]];
      if Covers(pattern, namespace) && |pattern| > |bestPrefix| {
        bestPrefix, enabled := pattern, value;
        assert config[..i + 1][i] == (bestPrefix, enabled);
      } else if bestPrefix != "" {
        var j :| 0 <= j < |config[..i]| && config[..i][j] == (bestPrefix, enabled);
        assert config[..i + 1][j] == (bestPrefix, enabled);
      }
    }
    assert config[..|config|] == config;
    BestDecides(config, namespace, bestPrefix, enabled);
  }

  // ----- Egress slots -----

  datatype Slot = Slot(name: string, active: bool, failures: nat)
  datatype SlotEvent = Register(name: string) | Unregister(name: string) | Deliver(failing: set<string>)

  const MAX_FAILURES := 5

  function Write(slot: Slot, failed: bool): Slot {
    if !slot.active then slot
    else if !failed then slot.(failures := 0)
    else slot.(failures := slot.failures + 1, active := slot.failures + 1 < MAX_FAILURES)
  }

  function Delivered(slots: seq<Slot>, failing: set<string>): (r: seq<Slot>)
    ensures |r| == |slots| && forall i :: 0 <= i < |slots| ==> r[i] == Write(slots[i], slots[i].name in failing)
  {
    if slots == [] then []
    else
      var r := Delivered(slots[..|slots| - 1], failing)
        + [Write(slots[|slots| - 1], slots[|slots| - 1].name in failing)];
      assert forall i :: 0 <= i < |slots| - 1 ==> slots[i] == slots[..|slots| - 1][i];
      r
  }

  // The position of the slot of that name, or the length if there is none.
  function Find(slots: seq<Slot>, name: string): (i: nat)
    ensures i <= |slots| && (i < |slots| ==> slots[i].name == name)
    ensures forall j :: 0 <= j < i ==> slots[j].name != name
  {
    if slots == [] || slots[0].name == name then 0
    else
      var i := Find(slots[1..], name);
      assert forall j :: 0 < j < i + 1 ==> slots[j] == slots[1..][j - 1];
      i + 1
  }

  function SlotStep(slots: seq<Slot>, e: SlotEvent): seq<Slot> {
    match e
    case Register(name) =>
      var i := Find(slots, name);
      if i < |slots| then slots[i := Slot(name, true, 0)] else slots + [Slot(name, true, 0)]
    case Unregister(name) =>
      var i := Find(slots, name);
      if i < |slots| then slots[..i] + slots[i + 1..] else slots
    case Deliver(failing) => Delivered(slots, failing)
  }

  function SlotRun(events: seq<SlotEvent>): seq<Slot> {
    if events == [] then [] else SlotStep(SlotRun(events[..|events| - 1]), events[|events| - 1])
  }

  // For a registered egress, whether it would fail on each entry delivered since it was registered last.
  function Since(events: seq<SlotEvent>, name: string): Option<seq<bool>> {
    if events == [] then None
    else
      var before := Since(events[..|events| - 1], name);
      match events[|events| - 1]
      case Register(n) => if n == name then Some([]) else before
      case Unregister(n) => if n == name then None else before
      case Deliver(failing) => if before.None? then None else Some(before.value + [name in failing])
  }

  function After(name: string, results: seq<bool>): Slot {
    if results == [] then Slot(name, true, 0)
    else Write(After(name, results[..|results| - 1]), results[|results| - 1])
  }

  predicate FailsFrom(results: seq<bool>, i: nat) {
    i + 5 <= |results| && forall j :: i <= j < i + 5 ==> results[j]
  }

  ghost predicate FiveInARow(results: seq<bool>) {
    exists i: nat :: FailsFrom(results, i)
  }

  // A slot is shut off exactly when five deliveries in a row have failed since it was registered, and stays shut
  // off; until then its counter is the length of the current row of failures.
  lemma {:induction false} ShutOffExactly(name: string, results: seq<bool>)
    ensures After(name, results).name == name
    ensures After(name, results).active <==> !FiveInARow(results)
    ensures !After(name, results).active ==> After(name, results).failures == 5
    ensures
      var slot := After(name, results);
      slot.active ==>
        && slot.failures < MAX_FAILURES && slot.failures <= |results|
        && (forall j :: |results| - slot.failures <= j < |results| ==> results[j])
        && (slot.failures < |results| ==> !results[|results| - slot.failures - 1])
  {
    if results == [] {
      assert forall i: nat :: !FailsFrom(results, i);
    } else {
      var init, last := results[..|results| - 1], results[|results| - 1];
      assert results == init + [last];
      ShutOffExactly(name, init);
      var before := After(name, init);
      if !before.active {
        var i: nat :| FailsFrom(init, i);
        assert FailsFrom(results, i);
      } else if last && before.failures + 1 == MAX_FAILURES {
        assert FailsFrom(results, |results| - MAX_FAILURES);
      } else {
        forall i: nat ensures !FailsFrom(results, i) {
          assert !FailsFrom(init, i);
          if i + MAX_FAILURES == |results| && last {
            assert i <= |results| - before.failures - 2 < i + MAX_FAILURES;
          }
        }
      }
    }
  }

  ghost predicate DistinctNames(slots: seq<Slot>) {
    forall i, j :: 0 <= i < j < |slots| ==> slots[i].name != slots[j].name
  }

  ghost predicate Tracks(slots: seq<Slot>, events: seq<SlotEvent>) {
    && DistinctNames(slots)
    && (forall i :: 0 <= i < |slots| ==>
          Since(events, slots[i].name).Some? && slots[i] == After(slots[i].name, Since(events, slots[i].name).value))
    && (forall name :: Since(events, name).Some? ==> Find(slots, name) < |slots|)
  }

  lemma RegisterTracks(slots: seq<Slot>, events: seq<SlotEvent>, name: string)
    requires Tracks(slots, events)
    ensures Tracks(SlotStep(slots, Register(name)), events + [Register(name)])
  {
    var events', slots' := events + [Register(name)], SlotStep(slots, Register(name));
    assert events'[..|events|] == events;
    assert forall n :: Since(events', n) == if n == name then Some([]) else Since(events, n);
    forall n | Since(events', n).Some? ensures Find(slots', n) < |slots'| {
      var k := if n == name then Find(slots, name) else Find(slots, n);
      assert slots'[k].name == n;
    }
  }

  lemma Without(slots: seq<Slot>, i: nat)
    requires i < |slots| && DistinctNames(slots)
    ensures
      var rest := slots[..i] + slots[i + 1..];
      && DistinctNames(rest)
      && (forall k :: 0 <= k < |rest| ==> rest[k] in slots && rest[k].name != slots[i].name)
      && (forall k :: 0 <= k < |slots| && k != i ==> slots[k] in rest)
  {
    var rest := slots[..i] + slots[i + 1..];
    assert forall k :: 0 <= k < |rest| ==> rest[k] == slots[if k < i then k else k + 1];
    forall k | 0 <= k < |slots| && k != i ensures slots[k] in rest {
      assert rest[if k < i then k else k - 1] == slots[k];
    }
  }

  lemma Found(slots: seq<Slot>, slot: Slot)
    requires slot in slots
    ensures Find(slots, slot.name) < |slots|
  {
  }

  lemma UnregisterTracks(slots: seq<Slot>, events: seq<SlotEvent>, name: string)
    requires Tracks(slots, events)
    ensures Tracks(SlotStep(slots, Unregister(name)), events + [Unregister(name)])
  {
    var events', slots' := events + [Unregister(name)], SlotStep(slots, Unregister(name));
    assert events'[..|events|] == events;
    assert forall n :: Since(events', n) == if n == name then None else Since(events, n);
    var i := Find(slots, name);
    if i < |slots| {
      Without(slots, i);
      forall n | Since(events', n).Some? ensures Find(slots', n) < |slots'| {
        Found(slots', slots[Find(slots, n)]);
      }
    }
  }

  lemma DeliverTracks(slots: seq<Slot>, events: seq<SlotEvent>, failing: set<string>)
    requires Tracks(slots, events)
    ensures Tracks(SlotStep(slots, Deliver(failing)), events + [Deliver(failing)])
  {
    var events', slots' := events + [Deliver(failing)], SlotStep(slots, Deliver(failing));
    assert events'[..|events|] == events;
    forall i | 0 <= i < |slots|
      ensures slots'[i].name == slots[i].name
      ensures Since(events', slots[i].name).Some?
      ensures slots'[i] == After(slots[i].name, Since(events', slots[i].name).value)
    {
      var results := Since(events, slots[i].name).value;
      var failed := slots[i].name in failing;
      assert (results + [failed])[..|results|] == results;
      ShutOffExactly(slots[i].name, results);
    }
    forall n | Since(events', n).Some? ensures Find(slots', n) < |slots'| {
      assert Since(events, n).Some?;
      assert slots'[Find(slots, n)].name == n;
    }
  }

  // An egress registered again gets a new slot in the place of its old one, a new one comes last; a removed one leaves
  // the others in their order.
  lemma RegisterExactly(before: seq<Slot>, slot: Slot, behind: seq<Slot>, name: string)
    requires forall s :: s in before ==> s.name != name
    ensures SlotStep(before, Register(name)) == before + [Slot(name, true, 0)]
    ensures SlotStep(before, Unregister(name)) == before
    ensures slot.name == name ==>
              && SlotStep(before + [slot] + behind, Register(name)) == before + [Slot(name, true, 0)] + behind
              && SlotStep(before + [slot] + behind, Unregister(name)) == before + behind
  {
    FoundBehind(before, [], name);
    assert before + [] == before;
    if slot.name == name {
      FoundBehind(before, [slot] + behind, name);
      assert before + ([slot] + behind) == before + [slot] + behind;
    }
  }

  lemma {:induction false} FoundBehind(before: seq<Slot>, rest: seq<Slot>, name: string)
    requires (forall s :: s in before ==> s.name != name) && (rest == [] || rest[0].name == name)
    ensures Find(before + rest, name) == |before|
  {
    if before == [] {
      assert before + rest == rest;
    } else {
      FoundBehind(before[1..], rest, name);
      assert (before + rest)[1..] == before[1..] + rest && (before + rest)[0] == before[0];
      assert before[0] in before;
    }
  }

  // Over every run: one slot per registered egress, in the state its own results since registration put it in.
  lemma {:induction false} SlotsExactly(events: seq<SlotEvent>)
    ensures Tracks(SlotRun(events), events)
  {
    if events == [] {
    } else {
      var init, e := events[..|events| - 1], events[|events| - 1];
      assert events == init + [e];
      SlotsExactly(init);
      match e
      case Register(name) => RegisterTracks(SlotRun(init), init, name);
      case Unregister(name) => UnregisterTracks(SlotRun(init), init, name);
      case Deliver(failing) => DeliverTracks(SlotRun(init), init, failing);
    }
  }

  // ----- The logger and its channels -----

  datatype LoggingConfig = LoggingConfig(level: Option<nat>, channels: Option<ChannelConfig>)

  class LogChannel {
    const namespace: string
    const logger: NousLogger
    var enabled: bool

    constructor (namespace: string, logger: NousLogger, enabled: bool)
      ensures this.namespace == namespace && this.logger == logger && this.enabled == enabled
    {
      this.namespace, this.logger, this.enabled := namespace, logger, enabled;
    }

    // An entry is delivered to the active slots when the channel is enabled and the level is high enough.
    method Emit(level: nat, failing: set<string>)
      modifies logger`egresses
      ensures logger.egresses ==
              if enabled && level >= logger.level then SlotStep(old(logger.egresses), Deliver(failing))
                else old(logger.egresses)
    {
      if !enabled || level < logger.level {
        return;
      }
      ghost var before := logger.egresses;
      for i := 0 to |logger.egresses|
        invariant |logger.egresses| == |before|
        invariant forall j :: 0 <= j < i ==> logger.egresses[j] == Write(before[j], before[j].name in failing)
        invariant forall j :: i <= j < |before| ==> logger.egresses[j] == before[j]
      {
        var slot := logger.egresses[i];
        if slot.active {
          if slot.name in failing {
            var failures := slot.failures + 1;
            slot := Slot(slot.name, failures < MAX_FAILURES, failures);
          } else {
            slot := slot.(failures := 0);
          }
        }
        logger.egresses := logger.egresses[i := slot];
      }
      assert logger.egresses == Delivered(before, failing);
    }
  }

  class NousLogger {
    var level: nat
    var channels: map<string, LogChannel>
    var egresses: seq<Slot>
    var channelConfig: ChannelConfig

    // Every cached flag is the one the current configuration resolves to.
    ghost predicate Valid()
      reads this, channels.Values
    {
      && DistinctPatterns(channelConfig)
      && (forall ns :: ns in channels ==>
            && ValidNamespace(ns) && channels[ns].namespace == ns && channels[ns].logger == this
            && channels[ns].enabled == Enabled(AsMap(channelConfig), ns))
    }

    constructor ()
      ensures Valid() && channels == map[] && egresses == SlotRun([]) && channelConfig == [] && level == 0
    {
      level, channels, egresses, channelConfig := 0, map[], [], [];
    }

    method Channel(namespace: string) returns (channel: Option<LogChannel>)
      requires Valid()
      modifies this`channels
      ensures Valid()
      ensures channel.None? <==> namespace !in old(channels) && !ValidNamespace(namespace)
      ensures channel.None? ==> channels == old(channels)
      ensures channel.Some? ==> channels == old(channels)[namespace := channel.value]
      ensures channel.Some? && namespace in old(channels) ==> channel.value == old(channels)[namespace]
      ensures channel.Some? && namespace !in old(channels) ==> fresh(channel.value)
      ensures channel.Some? ==>
              && channel.value.namespace == namespace
              && channel.value.enabled == Enabled(AsMap(channelConfig), namespace)
    {
      if namespace in channels {
        assert channels[namespace := channels[namespace]] == channels;
        return Some(channels[namespace]);
      }
      if !ValidNamespace(namespace) {
        return None;
      }
      var enabled := ResolveChannelEnabled(channelConfig, namespace);
      var ch := new LogChannel(namespace, this, enabled);
      channels := channels[namespace := ch];
      channel := Some(ch);
    }

    method RecomputeChannelStates()
      requires DistinctPatterns(channelConfig)
      requires forall ns :: ns in channels ==>
               ValidNamespace(ns) && channels[ns].namespace == ns && channels[ns].logger == this
      modifies channels.Values
      ensures Valid()
    {
      var todo := channels.Keys;
      while todo != {}
        invariant todo <= channels.Keys
        invariant forall ns :: ns in channels && ns !in todo ==>
                  channels[ns].enabled == Enabled(AsMap(channelConfig), ns)
        decreases |todo|
      {
        var ns :| ns in todo;
        var enabled := ResolveChannelEnabled(channelConfig, ns);
        assert forall other :: other in channels && channels[other] == channels[ns] ==> other == ns;
        channels[ns].enabled := enabled;
        todo := todo - {ns};
      }
    }

    method BindConfig(logging: Option<LoggingConfig>)
      requires Valid()
      requires logging.Some? && logging.value.channels.Some? ==> DistinctPatterns(logging.value.channels.value)
      modifies this`level, this`channelConfig, channels.Values
      ensures Valid()
      ensures level == if logging.Some? && logging.value.level.Some? then logging.value.level.value else old(level)
      ensures channelConfig ==
              if logging.Some? && logging.value.channels.Some? then logging.value.channels.value else old(channelConfig)
    {
      if logging.None? {
        return;
      }
      if logging.value.level.Some? {
        level := logging.value.level.value;
      }
      if logging.value.channels.Some? {
        channelConfig := logging.value.channels.value;
        RecomputeChannelStates();
      }
    }

    method AddEgress(name: string)
      modifies this`egresses
      ensures egresses == SlotStep(old(egresses), Register(name))
    {
      var existing := Find(egresses, name);
      if existing < |egresses| {
        egresses := egresses[existing := Slot(name, true, 0)];
        return;
      }
      egresses := egresses + [Slot(name, true, 0)];
    }

    method RemoveEgress(name: string)
      modifies this`egresses
      ensures egresses == SlotStep(old(egresses), Unregister(name))
    {
      var i := Find(egresses, name);
      if i < |egresses| {
        egresses := egresses[..i] + egresses[i + 1..];
      }
    }
  }
}
