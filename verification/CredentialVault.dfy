/**
 * The credential vault: entries under the key appId:userKey, an index of user keys per application, and backups.
 *
 * A call is a list of writes to the three collections, entry before index; storage may fail before any of them,
 * which ends the call with an error and leaves the writes before it in place. A secret stands for its ciphertext;
 * decryption is taken to invert encryption. The random part of a backup reference is an input of the call.
 */
module CredentialVault {
  import opened Memory
  import opened Sorting

  datatype Credential = Credential(appId: string, userKey: string, vaultKey: string, secret: string, storedAt: Time)
  datatype Backup = Backup(appId: string, userKey: string, entry: Option<Credential>)

  datatype Vault = Vault(
    entries: map<string, Credential>,
    namespaces: map<string, seq<string>>,
    backups: map<string, Backup>)

  datatype Event =
    | Store(app: string, key: string, secret: string, now: Time)
    | Revoke(app: string, key: string)
    | TakeBackup(app: string, key: string, ref: string)
    | Restore(app: string, ref: string)
    | Discard(app: string, ref: string)
    | Purge(app: string)

  // failAfter: storage fails after so many writes of the call.
  datatype Call = Call(event: Event, failAfter: Option<nat>)

  datatype Write =
    | PutEntry(key: string, entry: Credential)
    | DropEntry(key: string)
    | PutIndex(app: string, keys: seq<string>)
    | PutBackup(ref: string, backup: Backup)
    | DropBackup(ref: string)

  const EMPTY := Vault(map[], map[], map[])

  function VaultKey(app: string, key: string): string {
    app + ":" + key
  }

  function Keys(s: Vault, app: string): seq<string> {
    if app in s.namespaces then s.namespaces[app] else []
  }

  function Lookup(s: Vault, app: string, key: string): Option<Credential> {
    if VaultKey(app, key) in s.entries then Some(s.entries[VaultKey(app, key)]) else None
  }

  function Added(keys: seq<string>, key: string): seq<string> {
    if key in keys then keys else keys + [key]
  }

  function Without(keys: seq<string>, key: string): seq<string> {
    if keys == [] then []
    else (if keys[0] != key then [keys[0]] else []) + Without(keys[1..], key)
  }

  /******* The writes of a call, and what they do *******/

  // What the entry schema asks of the parts represented here.
  predicate Acceptable(app: string, key: string, secret: string) {
    app != "" && key != "" && secret != ""
  }

  predicate Owns(s: Vault, app: string, ref: string) {
    ref in s.backups && s.backups[ref].appId == app
  }

  // The entries that a purge drops: those of the listed keys that are stored, each once.
  function Drops(entries: map<string, Credential>, app: string, keys: seq<string>): seq<Write> {
    if keys == [] then []
    else
      var before := Drops(entries, app, keys[..|keys| - 1]);
      var v := VaultKey(app, keys[|keys| - 1]);
      if v in entries && DropEntry(v) !in before then before + [DropEntry(v)] else before
  }

  function Writes(s: Vault, e: Event): seq<Write> {
    match e
    case Store(app, key, secret, now) =>
      if !Acceptable(app, key, secret) then []
      else [PutEntry(VaultKey(app, key), Credential(app, key, VaultKey(app, key), secret, now)),
            PutIndex(app, Added(Keys(s, app), key))]
    case Revoke(app, key) =>
      if Lookup(s, app, key).None? then []
      else [DropEntry(VaultKey(app, key)), PutIndex(app, Without(Keys(s, app), key))]
    case TakeBackup(app, key, ref) => [PutBackup(ref, Backup(app, key, Lookup(s, app, key)))]
    case Restore(app, ref) =>
      if !Owns(s, app, ref) then []
      else
        var b := s.backups[ref];
        if b.entry.Some?
        then [PutEntry(b.entry.value.vaultKey, b.entry.value),
              PutIndex(app, Added(Keys(s, app), b.entry.value.userKey))]
        else [DropEntry(VaultKey(app, b.userKey)), PutIndex(app, Without(Keys(s, app), b.userKey))]
    case Discard(app, ref) => if Owns(s, app, ref) then [DropBackup(ref)] else []
    case Purge(app) => Drops(s.entries, app, Keys(s, app)) + [PutIndex(app, [])]
  }

  function Perform(s: Vault, w: Write): Vault {
    match w
    case PutEntry(v, entry) => s.(entries := s.entries[v := entry])
    case DropEntry(v) => s.(entries := s.entries - {v})
    case PutIndex(app, keys) => s.(namespaces := s.namespaces[app := keys])
    case PutBackup(ref, backup) => s.(backups := s.backups[ref := backup])
    case DropBackup(ref) => s.(backups := s.backups - {ref})
  }

  function PerformAll(s: Vault, ws: seq<Write>): Vault {
    if ws == [] then s else Perform(PerformAll(s, ws[..|ws| - 1]), ws[|ws| - 1])
  }

  // The writes that take place.
  function Performed(s: Vault, c: Call): seq<Write> {
    var ws := Writes(s, c.event);
    if c.failAfter.Some? && c.failAfter.value < |ws| then ws[..c.failAfter.value] else ws
  }

  predicate Completes(s: Vault, c: Call) {
    c.failAfter.None? || c.failAfter.value >= |Writes(s, c.event)|
  }

  function Step(s: Vault, c: Call): Vault {
    PerformAll(s, Performed(s, c))
  }

  function RunFrom(s: Vault, calls: seq<Call>): Vault {
    if calls == [] then s else Step(RunFrom(s, calls[..|calls| - 1]), calls[|calls| - 1])
  }

  lemma PerformOne(s: Vault, w: Write)
    ensures PerformAll(s, [w]) == Perform(s, w)
  {
    assert [w][..0] == [];
  }

  lemma PerformTwo(s: Vault, w: Write, x: Write)
    ensures PerformAll(s, [w, x]) == Perform(Perform(s, w), x)
  {
    assert [w, x][..1] == [w];
    PerformOne(s, w);
  }

  lemma PerformMore(s: Vault, ws: seq<Write>, w: Write)
    ensures PerformAll(s, ws + [w]) == Perform(PerformAll(s, ws), w)
  {
    assert (ws + [w])[..|ws|] == ws;
  }

  // A call of two writes after none, one or both of them.
  lemma TwoWrites(s: Vault, c: Call, w: Write, x: Write)
    requires Writes(s, c.event) == [w, x]
    ensures Performed(s, c) == if c.failAfter == Some(0) then [] else if c.failAfter == Some(1) then [w] else [w, x]
    ensures Step(s, c) ==
            if c.failAfter == Some(0) then s
            else if c.failAfter == Some(1) then Perform(s, w)
            else Perform(Perform(s, w), x)
  {
    assert [w, x][..0] == [] && [w, x][..1] == [w];
    PerformOne(s, w);
    PerformTwo(s, w, x);
  }

  lemma OneWrite(s: Vault, c: Call, w: Write)
    requires Writes(s, c.event) == [w]
    ensures Performed(s, c) == if c.failAfter == Some(0) then [] else [w]
    ensures Step(s, c) == if c.failAfter == Some(0) then s else Perform(s, w)
  {
    assert [w][..0] == [];
    PerformOne(s, w);
  }

  /******* Application ids whose vault keys cannot collide *******/

  ghost predicate PrefixFree(apps: set<string>) {
    forall a, b :: a in apps && b in apps && a != b ==> !(a + ":" <= b)
  }

  // Two vault keys are equal only for the same application and key, or when one id extends the other by a colon.
  lemma VaultKeyCollision(a: string, k: string, b: string, l: string)
    requires VaultKey(a, k) == VaultKey(b, l)
    ensures (a == b && k == l) || a + ":" <= b || b + ":" <= a
  {
    var v := VaultKey(a, k);
    assert v[..|a|] == a && v[|a|] == ':' && v[|a| + 1..] == k;
    assert v[..|b|] == b && v[|b|] == ':' && v[|b| + 1..] == l;
    if |a| < |b| {
      assert b[..|a| + 1] == v[..|a| + 1] == a + ":";
    } else if |b| < |a| {
      assert a[..|b| + 1] == v[..|b| + 1] == b + ":";
    }
  }

  lemma NotOwnPrefix(a: string)
    ensures !(a + ":" <= a)
  {
    assert |a + ":"| > |a|;
  }

  lemma KeysApart(apps: set<string>, a: string, k: string, b: string, l: string)
    requires PrefixFree(apps) && a in apps && b in apps && (a != b || k != l)
    ensures VaultKey(a, k) != VaultKey(b, l)
  {
    if VaultKey(a, k) == VaultKey(b, l) {
      NotOwnPrefix(a);
      VaultKeyCollision(a, k, b, l);
    }
  }

  /******* What every state satisfies, whatever fails *******/

  predicate WellFormed(e: Credential, app: string, key: string) {
    e.appId == app && e.userKey == key && e.vaultKey == VaultKey(app, key)
  }

  ghost predicate EntriesSound(entries: map<string, Credential>, apps: set<string>) {
    forall v :: v in entries ==>
      var e := entries[v];
      e.appId in apps && WellFormed(e, e.appId, e.userKey) && e.vaultKey == v
  }

  predicate BackupSound(b: Backup) {
    b.entry.Some? ==> WellFormed(b.entry.value, b.appId, b.userKey)
  }

  ghost predicate Sane(s: Vault, apps: set<string>) {
    && (forall app :: app in apps ==> Distinct(Keys(s, app)))
    && EntriesSound(s.entries, apps)
    && (forall ref :: ref in s.backups ==> s.backups[ref].appId in apps && BackupSound(s.backups[ref]))
  }

  ghost predicate Over(calls: seq<Call>, apps: set<string>) {
    forall i :: 0 <= i < |calls| ==> calls[i].event.app in apps
  }

  // A write that keeps a sane vault sane.
  ghost predicate SaneWrite(w: Write, apps: set<string>) {
    match w
    case PutEntry(v, e) => e.appId in apps && WellFormed(e, e.appId, e.userKey) && e.vaultKey == v
    case DropEntry(_) => true
    case PutIndex(_, keys) => Distinct(keys)
    case PutBackup(_, b) => b.appId in apps && BackupSound(b)
    case DropBackup(_) => true
  }

  lemma PerformKeepsSane(s: Vault, w: Write, apps: set<string>)
    requires Sane(s, apps) && SaneWrite(w, apps)
    ensures Sane(Perform(s, w), apps)
  {
  }

  lemma {:induction false} PerformAllKeepsSane(s: Vault, ws: seq<Write>, apps: set<string>)
    requires Sane(s, apps) && forall i :: 0 <= i < |ws| ==> SaneWrite(ws[i], apps)
    ensures Sane(PerformAll(s, ws), apps)
  {
    if ws == [] {
    } else {
      var init := ws[..|ws| - 1];
      assert forall i :: 0 <= i < |init| ==> init[i] == ws[i];
      PerformAllKeepsSane(s, init, apps);
      PerformKeepsSane(PerformAll(s, init), ws[|ws| - 1], apps);
    }
  }

  lemma {:induction false} WithoutContents(keys: seq<string>, key: string)
    requires Distinct(keys)
    ensures Distinct(Without(keys, key))
    ensures forall k :: k in Without(keys, key) <==> k in keys && k != key
  {
    if keys == [] {
    } else {
      var first, rest := keys[0], keys[1..];
      assert keys == [first] + rest;
      WithoutContents(rest, key);
      assert first !in rest && first !in Without(rest, key);
    }
  }

  lemma {:induction false} DropsAreDrops(entries: map<string, Credential>, app: string, keys: seq<string>)
    ensures forall i :: 0 <= i < |Drops(entries, app, keys)| ==> Drops(entries, app, keys)[i].DropEntry?
  {
    if keys == [] {
    } else {
      DropsAreDrops(entries, app, keys[..|keys| - 1]);
    }
  }

  // The entry found under a key of an application is that application's own.
  lemma FoundIsOwn(s: Vault, apps: set<string>, app: string, key: string)
    requires PrefixFree(apps) && Sane(s, apps) && app in apps && VaultKey(app, key) in s.entries
    ensures WellFormed(s.entries[VaultKey(app, key)], app, key)
  {
    var e := s.entries[VaultKey(app, key)];
    if e.appId != app || e.userKey != key {
      KeysApart(apps, e.appId, e.userKey, app, key);
    }
  }

  lemma WritesAreSane(s: Vault, e: Event, apps: set<string>, i: nat)
    requires PrefixFree(apps) && Sane(s, apps) && e.app in apps && i < |Writes(s, e)|
    ensures SaneWrite(Writes(s, e)[i], apps)
  {
    match e
    case Store(app, key, secret, now) =>
    case Revoke(app, key) => WithoutContents(Keys(s, app), key);
    case TakeBackup(app, key, ref) =>
      if VaultKey(app, key) in s.entries {
        FoundIsOwn(s, apps, app, key);
      }
    case Restore(app, ref) =>
      if s.backups[ref].entry.None? {
        WithoutContents(Keys(s, app), s.backups[ref].userKey);
      }
    case Discard(app, ref) =>
    case Purge(app) => DropsAreDrops(s.entries, app, Keys(s, app));
  }

  lemma StepKeepsSane(s: Vault, c: Call, apps: set<string>)
    requires PrefixFree(apps) && Sane(s, apps) && c.event.app in apps
    ensures Sane(Step(s, c), apps)
  {
    var ws := Performed(s, c);
    forall i | 0 <= i < |ws| ensures SaneWrite(ws[i], apps) {
      WritesAreSane(s, c.event, apps, i);
    }
    PerformAllKeepsSane(s, ws, apps);
  }

  lemma {:induction false} RunKeepsSane(s: Vault, calls: seq<Call>, apps: set<string>)
    requires PrefixFree(apps) && Sane(s, apps) && Over(calls, apps)
    ensures Sane(RunFrom(s, calls), apps)
  {
    if calls == [] {
    } else {
      RunKeepsSane(s, calls[..|calls| - 1], apps);
      StepKeepsSane(RunFrom(s, calls[..|calls| - 1]), calls[|calls| - 1], apps);
    }
  }

  /******* Purging *******/

  function VaultKeys(app: string, keys: seq<string>): set<string> {
    if keys == [] then {} else VaultKeys(app, keys[..|keys| - 1]) + {VaultKey(app, keys[|keys| - 1])}
  }

  lemma {:induction false} VaultKeysContents(app: string, keys: seq<string>)
    ensures forall key :: VaultKey(app, key) in VaultKeys(app, keys) <==> key in keys
    ensures forall v :: v in VaultKeys(app, keys) ==> exists key :: key in keys && v == VaultKey(app, key)
  {
    if keys == [] {
    } else {
      var init, last := keys[..|keys| - 1], keys[|keys| - 1];
      assert keys == init + [last];
      VaultKeysContents(app, init);
      NotOwnPrefix(app);
      forall key ensures VaultKey(app, key) in VaultKeys(app, keys) <==> key in keys {
        if VaultKey(app, key) == VaultKey(app, last) {
          VaultKeyCollision(app, key, app, last);
        }
      }
      forall v | v in VaultKeys(app, keys) ensures exists key :: key in keys && v == VaultKey(app, key) {
        if v == VaultKey(app, last) {
          assert last in keys;
        }
      }
    }
  }

  // A purge drops the stored vault keys of its list, each once, and nothing else.
  lemma {:induction false} DropsContents(entries: map<string, Credential>, app: string, keys: seq<string>)
    ensures forall v :: DropEntry(v) in Drops(entries, app, keys) <==> v in VaultKeys(app, keys) && v in entries
    ensures |Drops(entries, app, keys)| == |VaultKeys(app, keys) * entries.Keys|
  {
    if keys == [] {
      assert VaultKeys(app, keys) * entries.Keys == {};
    } else {
      var init, v := keys[..|keys| - 1], VaultKey(app, keys[|keys| - 1]);
      DropsContents(entries, app, init);
      var taken := VaultKeys(app, init) * entries.Keys;
      if v in entries && DropEntry(v) !in Drops(entries, app, init) {
        assert VaultKeys(app, keys) * entries.Keys == taken + {v};
      } else {
        assert VaultKeys(app, keys) * entries.Keys == taken;
      }
    }
  }

  // Performing drops removes exactly the keys they name.
  lemma {:induction false} PerformDrops(s: Vault, ws: seq<Write>)
    requires forall i :: 0 <= i < |ws| ==> ws[i].DropEntry?
    ensures PerformAll(s, ws).namespaces == s.namespaces && PerformAll(s, ws).backups == s.backups
    ensures forall v :: v in PerformAll(s, ws).entries <==> v in s.entries && DropEntry(v) !in ws
    ensures forall v :: v in PerformAll(s, ws).entries ==> PerformAll(s, ws).entries[v] == s.entries[v]
  {
    if ws == [] {
    } else {
      var init := ws[..|ws| - 1];
      assert ws == init + [ws[|ws| - 1]];
      assert forall i :: 0 <= i < |init| ==> init[i] == ws[i];
      PerformDrops(s, init);
    }
  }

  lemma {:induction false} DropsGrow(entries: map<string, Credential>, app: string, keys: seq<string>, n: nat)
    requires n <= |keys|
    ensures Drops(entries, app, keys[..n]) <= Drops(entries, app, keys)
    decreases |keys|
  {
    if n == |keys| {
      assert keys[..n] == keys;
    } else {
      assert keys[..|keys| - 1][..n] == keys[..n];
      DropsGrow(entries, app, keys[..|keys| - 1], n);
    }
  }

  lemma PurgePerformed(s: Vault, app: string, failAfter: Option<nat>)
    ensures
      var drops := Drops(s.entries, app, Keys(s, app));
      var c := Call(Purge(app), failAfter);
      && |Writes(s, Purge(app))| == |drops| + 1
      && (Completes(s, c) ==> Performed(s, c) == drops + [PutIndex(app, [])])
      && (!Completes(s, c) ==> failAfter.value <= |drops| && Performed(s, c) == drops[..failAfter.value])
  {
  }

  // A purge up to any point: the entries dropped so far are gone; the index is emptied by the last write only.
  lemma PurgeStep(s: Vault, app: string, failAfter: Option<nat>)
    ensures
      var c := Call(Purge(app), failAfter);
      var s' := Step(s, c);
      && s'.backups == s.backups
      && s'.namespaces == (if Completes(s, c) then s.namespaces[app := []] else s.namespaces)
      && (forall v :: v in s'.entries <==> v in s.entries && DropEntry(v) !in Performed(s, c))
      && (forall v :: v in s'.entries ==> s'.entries[v] == s.entries[v])
  {
    var c, drops := Call(Purge(app), failAfter), Drops(s.entries, app, Keys(s, app));
    PurgePerformed(s, app, failAfter);
    DropsAreDrops(s.entries, app, Keys(s, app));
    if Completes(s, c) {
      PerformDrops(s, drops);
      PerformMore(s, drops, PutIndex(app, []));
      assert Step(s, c) == Perform(PerformAll(s, drops), PutIndex(app, []));
      assert forall v :: DropEntry(v) in Performed(s, c) <==> DropEntry(v) in drops;
    } else {
      PerformDrops(s, drops[..failAfter.value]);
      assert Step(s, c) == PerformAll(s, drops[..failAfter.value]);
    }
  }

  ghost function Owned(entries: map<string, Credential>, app: string): set<string> {
    set v | v in entries && entries[v].appId == app
  }

  // The entries of an application whose key its index lists.
  ghost function Listed(s: Vault, app: string): set<string> {
    set v | v in s.entries && s.entries[v].appId == app && s.entries[v].userKey in Keys(s, app)
  }

  lemma ListedIsIndexed(s: Vault, apps: set<string>, app: string)
    requires PrefixFree(apps) && Sane(s, apps) && app in apps
    ensures VaultKeys(app, Keys(s, app)) * s.entries.Keys == Listed(s, app)
  {
    VaultKeysContents(app, Keys(s, app));
    forall v | v in s.entries ensures v in VaultKeys(app, Keys(s, app)) <==> v in Listed(s, app) {
      if v in VaultKeys(app, Keys(s, app)) {
        var key :| key in Keys(s, app) && v == VaultKey(app, key);
        FoundIsOwn(s, apps, app, key);
      }
    }
  }

  lemma MapsAgree(m: map<string, Credential>, n: map<string, Credential>)
    requires forall k :: k in m <==> k in n
    requires forall k :: k in m ==> m[k] == n[k]
    ensures m == n
  {
  }

  lemma PurgeTakes(s: Vault, app: string)
    ensures Step(s, Call(Purge(app), None)).entries == s.entries - VaultKeys(app, Keys(s, app))
  {
    var s' := Step(s, Call(Purge(app), None));
    PurgeStep(s, app, None);
    PurgePerformed(s, app, None);
    DropsContents(s.entries, app, Keys(s, app));
    MapsAgree(s'.entries, s.entries - VaultKeys(app, Keys(s, app)));
  }

  lemma PurgeTakesListed(s: Vault, apps: set<string>, app: string)
    requires PrefixFree(apps) && Sane(s, apps) && app in apps
    ensures Step(s, Call(Purge(app), None)).entries == s.entries - Listed(s, app)
    ensures |Drops(s.entries, app, Keys(s, app))| == |Listed(s, app)|
  {
    var all, listed := VaultKeys(app, Keys(s, app)), Listed(s, app);
    PurgeTakes(s, app);
    DropsContents(s.entries, app, Keys(s, app));
    ListedIsIndexed(s, apps, app);
    assert all * s.entries.Keys == listed;
    MapsAgree(s.entries - all, s.entries - listed);
  }

  lemma LeftOwned(entries: map<string, Credential>, app: string, gone: set<string>)
    ensures Owned(entries - gone, app) == Owned(entries, app) - gone
  {
  }

  // A completed purge takes exactly the listed entries of the application and returns their number; it empties the
  // index. It takes all of the application's entries exactly when the index lists them all.
  lemma PurgeTakesExactlyTheNamespace(s: Vault, apps: set<string>, app: string)
    requires PrefixFree(apps) && Sane(s, apps) && app in apps
    ensures
      var s' := Step(s, Call(Purge(app), None));
      && s'.entries == s.entries - Listed(s, app)
      && |Drops(s.entries, app, Keys(s, app))| == |Listed(s, app)|
      && Keys(s', app) == []
      && (forall a :: a != app ==> Keys(s', a) == Keys(s, a))
      && (Owned(s'.entries, app) == {} <==> Owned(s.entries, app) <= Listed(s, app))
  {
    PurgeTakesListed(s, apps, app);
    assert Step(s, Call(Purge(app), None)).namespaces == s.namespaces[app := []] by { PurgeStep(s, app, None); }
    LeftOwned(s.entries, app, Listed(s, app));
    LeftNothing(Owned(s.entries, app), Listed(s, app));
  }

  lemma LeftNothing<T>(a: set<T>, b: set<T>)
    ensures a - b == {} <==> a <= b
  {
    if a - b == {} {
      forall x | x in a ensures x in b {
        assert x !in a - b;
      }
    }
  }

  /******* The index agrees with the entries *******/

  predicate Named(entries: map<string, Credential>, app: string, key: string) {
    var v := VaultKey(app, key);
    v in entries && entries[v].appId == app && entries[v].userKey == key
  }

  // The key list of an application is free of duplicates and lists exactly its stored entries, which are its own.
  ghost predicate AppAgrees(s: Vault, app: string) {
    && Distinct(Keys(s, app))
    && (forall key :: key in Keys(s, app) <==> Named(s.entries, app, key))
    && (forall key :: VaultKey(app, key) in s.entries ==> Named(s.entries, app, key))
  }

  ghost predicate Agrees(s: Vault, apps: set<string>) {
    forall app :: app in apps ==> AppAgrees(s, app)
  }

  predicate Settled(s: Vault, app: string, key: string) {
    key in Keys(s, app) <==> VaultKey(app, key) in s.entries
  }

  ghost predicate AllSettled(s: Vault, apps: set<string>) {
    forall app, key :: app in apps ==> Settled(s, app, key)
  }

  lemma AgreesMeansSettled(s: Vault, apps: set<string>)
    requires PrefixFree(apps) && Sane(s, apps)
    ensures Agrees(s, apps) <==> AllSettled(s, apps)
  {
    forall app, key | app in apps ensures VaultKey(app, key) in s.entries <==> Named(s.entries, app, key) {
      if VaultKey(app, key) in s.entries {
        FoundIsOwn(s, apps, app, key);
      }
    }
    if Agrees(s, apps) {
      forall app, key | app in apps ensures Settled(s, app, key) {
        assert AppAgrees(s, app);
      }
    } else {
      var app :| app in apps && !AppAgrees(s, app);
      assert !(forall key :: key in Keys(s, app) <==> Named(s.entries, app, key));
      var key :| !(key in Keys(s, app) <==> Named(s.entries, app, key));
      assert !Settled(s, app, key);
    }
  }

  // The call puts an entry under this key, and gets that far.
  predicate Puts(s: Vault, c: Call, app: string, key: string) {
    Performed(s, c) != [] && Performed(s, c)[0].PutEntry? && Performed(s, c)[0].key == VaultKey(app, key)
  }

  // The call drops the entry under this key, and gets that far.
  predicate DropsKey(s: Vault, c: Call, app: string, key: string) {
    DropEntry(VaultKey(app, key)) in Performed(s, c)
  }

  // The call writes the entry and then fails before the index, which does not fit the new state of the entry.
  predicate LeavesTorn(s: Vault, c: Call, app: string, key: string) {
    && !Completes(s, c)
    && ((Puts(s, c, app, key) && key !in Keys(s, app)) || (DropsKey(s, c, app, key) && key in Keys(s, app)))
  }

  // The call writes the entry and the index comes to fit it, by its own last write or because it fitted already; or it
  // empties an index that lists the key.
  predicate Settles(s: Vault, c: Call, app: string, key: string) {
    || (Puts(s, c, app, key) && (Completes(s, c) || key in Keys(s, app)))
    || (DropsKey(s, c, app, key) && (Completes(s, c) || key !in Keys(s, app)))
    || (c.event == Purge(app) && Completes(s, c) && key in Keys(s, app))
  }

  predicate SettledAfter(s: Vault, c: Call, app: string, key: string) {
    !LeavesTorn(s, c, app, key) && (Settles(s, c, app, key) || Settled(s, app, key))
  }

  // A call that writes one entry and then the index of its application.
  ghost predicate IsPair(s: Vault, c: Call, w: Write, own: string, keys: seq<string>) {
    && !c.event.Purge? && Writes(s, c.event) == [w, PutIndex(c.event.app, keys)]
    && (w.PutEntry? || w.DropEntry?) && w.key == VaultKey(c.event.app, own)
    && (forall k :: k in keys <==> if k == own then w.PutEntry? else k in Keys(s, c.event.app))
  }

  lemma PairSettlesOwn(s: Vault, c: Call, w: Write, own: string, keys: seq<string>)
    requires IsPair(s, c, w, own, keys)
    ensures Settled(Step(s, c), c.event.app, own) <==> SettledAfter(s, c, c.event.app, own)
  {
    TwoWrites(s, c, w, PutIndex(c.event.app, keys));
  }

  lemma PairSettlesOther(s: Vault, c: Call, w: Write, own: string, keys: seq<string>, app: string, key: string)
    requires IsPair(s, c, w, own, keys) && VaultKey(app, key) != w.key && (app != c.event.app || key != own)
    ensures Settled(Step(s, c), app, key) <==> SettledAfter(s, c, app, key)
  {
    TwoWrites(s, c, w, PutIndex(c.event.app, keys));
    var s' := Step(s, c);
    assert VaultKey(app, key) in s'.entries <==> VaultKey(app, key) in s.entries;
    assert key in Keys(s', app) <==> key in Keys(s, app);
  }

  lemma PairSettles(s: Vault, c: Call, apps: set<string>, w: Write, own: string, keys: seq<string>, app: string,
                    key: string)
    requires PrefixFree(apps) && c.event.app in apps && app in apps && IsPair(s, c, w, own, keys)
    ensures Settled(Step(s, c), app, key) <==> SettledAfter(s, c, app, key)
  {
    if app == c.event.app && key == own {
      PairSettlesOwn(s, c, w, own, keys);
    } else {
      KeysApart(apps, app, key, c.event.app, own);
      PairSettlesOther(s, c, w, own, keys, app, key);
    }
  }

  lemma PurgeDropsKey(s: Vault, apps: set<string>, own: string, app: string, key: string)
    requires PrefixFree(apps) && own in apps && app in apps
    ensures DropEntry(VaultKey(app, key)) in Drops(s.entries, own, Keys(s, own)) <==>
              app == own && key in Keys(s, own) && VaultKey(app, key) in s.entries
  {
    var v := VaultKey(app, key);
    DropsContents(s.entries, own, Keys(s, own));
    VaultKeysContents(own, Keys(s, own));
    if v in VaultKeys(own, Keys(s, own)) && app != own {
      var k :| k in Keys(s, own) && v == VaultKey(own, k);
      KeysApart(apps, app, key, own, k);
    }
  }

  // What a purge does to one entry and its place in the index.
  lemma PurgeOutcome(s: Vault, own: string, failAfter: Option<nat>, app: string, key: string)
    ensures
      var c := Call(Purge(own), failAfter);
      && (VaultKey(app, key) in Step(s, c).entries <==> VaultKey(app, key) in s.entries && !DropsKey(s, c, app, key))
      && Keys(Step(s, c), app) == (if Completes(s, c) && app == own then [] else Keys(s, app))
  {
    PurgeStep(s, own, failAfter);
  }

  lemma PurgePutsNothing(s: Vault, own: string, failAfter: Option<nat>, app: string, key: string)
    ensures !Puts(s, Call(Purge(own), failAfter), app, key)
  {
    PurgePerformed(s, own, failAfter);
    DropsAreDrops(s.entries, own, Keys(s, own));
  }

  lemma PurgeDropsWhat(s: Vault, apps: set<string>, own: string, failAfter: Option<nat>, app: string, key: string)
    requires PrefixFree(apps) && own in apps && app in apps
    ensures
      var c := Call(Purge(own), failAfter);
      var listed := app == own && key in Keys(s, own) && VaultKey(app, key) in s.entries;
      (DropsKey(s, c, app, key) ==> listed) && (Completes(s, c) && listed ==> DropsKey(s, c, app, key))
  {
    PurgePerformed(s, own, failAfter);
    PurgeDropsKey(s, apps, own, app, key);
  }

  lemma SettledByPurge(s: Vault, s': Vault, c: Call, app: string, key: string, drops: bool, full: bool)
    requires c.event.Purge? && full == Completes(s, c) && drops == DropsKey(s, c, app, key) && !Puts(s, c, app, key)
    requires VaultKey(app, key) in s'.entries <==> VaultKey(app, key) in s.entries && !drops
    requires Keys(s', app) == if full && app == c.event.app then [] else Keys(s, app)
    requires drops ==> app == c.event.app && key in Keys(s, app) && VaultKey(app, key) in s.entries
    requires full && app == c.event.app && key in Keys(s, app) && VaultKey(app, key) in s.entries ==> drops
    ensures Settled(s', app, key) <==> SettledAfter(s, c, app, key)
  {
  }

  lemma PurgeSettles(s: Vault, c: Call, apps: set<string>, app: string, key: string)
    requires PrefixFree(apps) && c.event.Purge? && c.event.app in apps && app in apps
    ensures Settled(Step(s, c), app, key) <==> SettledAfter(s, c, app, key)
  {
    var own := c.event.app;
    assert c == Call(Purge(own), c.failAfter);
    PurgeOutcome(s, own, c.failAfter, app, key);
    PurgePutsNothing(s, own, c.failAfter, app, key);
    PurgeDropsWhat(s, apps, own, c.failAfter, app, key);
    SettledByPurge(s, Step(s, c), c, app, key, DropsKey(s, c, app, key), Completes(s, c));
  }

  // For one application and key, after any call at any point of failure: the index fits the entry if and only if the
  // call did not tear them apart, and either settled them or found them settled.
  lemma SettledExactly(s: Vault, c: Call, apps: set<string>, app: string, key: string)
    requires PrefixFree(apps) && Sane(s, apps) && c.event.app in apps && app in apps
    ensures Settled(Step(s, c), app, key) <==> SettledAfter(s, c, app, key)
  {
    match c.event
    case Store(_, _, _, _) => StoreSettles(s, c, apps, app, key);
    case Revoke(_, _) => RevokeSettles(s, c, apps, app, key);
    case Restore(_, _) => RestoreSettles(s, c, apps, app, key);
    case TakeBackup(_, _, _) => BackupSettles(s, c, app, key);
    case Discard(_, _) => BackupSettles(s, c, app, key);
    case Purge(_) => PurgeSettles(s, c, apps, app, key);
  }

  lemma StoreSettles(s: Vault, c: Call, apps: set<string>, app: string, key: string)
    requires PrefixFree(apps) && c.event.Store? && c.event.app in apps && app in apps
    ensures Settled(Step(s, c), app, key) <==> SettledAfter(s, c, app, key)
  {
    var Store(own, k, secret, now) := c.event;
    if Acceptable(own, k, secret) {
      PairSettles(s, c, apps, Writes(s, c.event)[0], k, Added(Keys(s, own), k), app, key);
    } else {
      NothingSettles(s, c, app, key);
    }
  }

  lemma RevokeSettles(s: Vault, c: Call, apps: set<string>, app: string, key: string)
    requires PrefixFree(apps) && Sane(s, apps) && c.event.Revoke? && c.event.app in apps && app in apps
    ensures Settled(Step(s, c), app, key) <==> SettledAfter(s, c, app, key)
  {
    var Revoke(own, k) := c.event;
    if Lookup(s, own, k).Some? {
      WithoutContents(Keys(s, own), k);
      PairSettles(s, c, apps, Writes(s, c.event)[0], k, Without(Keys(s, own), k), app, key);
    } else {
      NothingSettles(s, c, app, key);
    }
  }

  lemma RestoreSettles(s: Vault, c: Call, apps: set<string>, app: string, key: string)
    requires PrefixFree(apps) && Sane(s, apps) && c.event.Restore? && c.event.app in apps && app in apps
    ensures Settled(Step(s, c), app, key) <==> SettledAfter(s, c, app, key)
  {
    var Restore(own, ref) := c.event;
    if Owns(s, own, ref) {
      var k := s.backups[ref].userKey;
      WithoutContents(Keys(s, own), k);
      PairSettles(s, c, apps, Writes(s, c.event)[0], k,
                  if s.backups[ref].entry.Some? then Added(Keys(s, own), k) else Without(Keys(s, own), k), app, key);
    } else {
      NothingSettles(s, c, app, key);
    }
  }

  // A call that writes nothing, and one that touches only a backup.
  lemma NothingSettles(s: Vault, c: Call, app: string, key: string)
    requires !c.event.Purge? && Writes(s, c.event) == []
    ensures Settled(Step(s, c), app, key) <==> SettledAfter(s, c, app, key)
  {
    assert Performed(s, c) == [] && Step(s, c) == s;
  }

  lemma BackupSettles(s: Vault, c: Call, app: string, key: string)
    requires c.event.TakeBackup? || c.event.Discard?
    ensures Settled(Step(s, c), app, key) <==> SettledAfter(s, c, app, key)
  {
    if Writes(s, c.event) == [] {
      NothingSettles(s, c, app, key);
    } else {
      OneWrite(s, c, Writes(s, c.event)[0]);
    }
  }

  /******* Whole runs *******/

  // Some call tore the index from the entry under this key, and no later call settled them.
  predicate Outstanding(calls: seq<Call>, app: string, key: string) {
    calls != [] &&
    var before, c := RunFrom(EMPTY, calls[..|calls| - 1]), calls[|calls| - 1];
    LeavesTorn(before, c, app, key) || (Outstanding(calls[..|calls| - 1], app, key) && !Settles(before, c, app, key))
  }

  lemma {:induction false} SettledOverRuns(calls: seq<Call>, apps: set<string>, app: string, key: string)
    requires PrefixFree(apps) && Over(calls, apps) && app in apps
    ensures Settled(RunFrom(EMPTY, calls), app, key) <==> !Outstanding(calls, app, key)
  {
    if calls == [] {
    } else {
      var init := calls[..|calls| - 1];
      SettledOverRuns(init, apps, app, key);
      RunKeepsSane(EMPTY, init, apps);
      SettledExactly(RunFrom(EMPTY, init), calls[|calls| - 1], apps, app, key);
    }
  }

  ghost predicate NothingOutstanding(calls: seq<Call>, apps: set<string>) {
    forall app, key :: app in apps ==> !Outstanding(calls, app, key)
  }

  lemma AllSettledExactly(calls: seq<Call>, apps: set<string>)
    requires PrefixFree(apps) && Over(calls, apps)
    ensures AllSettled(RunFrom(EMPTY, calls), apps) <==> NothingOutstanding(calls, apps)
  {
    var s := RunFrom(EMPTY, calls);
    if AllSettled(s, apps) {
      forall app, key | app in apps ensures !Outstanding(calls, app, key) {
        SettledOverRuns(calls, apps, app, key);
      }
    } else {
      var app, key :| app in apps && !Settled(s, app, key);
      SettledOverRuns(calls, apps, app, key);
    }
  }

  // Over every run, whatever fails, with ids that do not extend each other by a colon: index and entries agree at the
  // end if and only if no torn call is outstanding.
  lemma AgreesExactly(calls: seq<Call>, apps: set<string>)
    requires PrefixFree(apps) && Over(calls, apps)
    ensures Agrees(RunFrom(EMPTY, calls), apps) <==> NothingOutstanding(calls, apps)
  {
    RunKeepsSane(EMPTY, calls, apps);
    AgreesMeansSettled(RunFrom(EMPTY, calls), apps);
    AllSettledExactly(calls, apps);
  }

  // A call that fails between two of its writes.
  predicate Torn(s: Vault, c: Call) {
    !Completes(s, c) && Performed(s, c) != []
  }

  predicate EverTorn(calls: seq<Call>) {
    calls != [] && (EverTorn(calls[..|calls| - 1]) || Torn(RunFrom(EMPTY, calls[..|calls| - 1]), calls[|calls| - 1]))
  }

  lemma {:induction false} WholeCallsLeaveNothing(calls: seq<Call>, app: string, key: string)
    requires !EverTorn(calls)
    ensures !Outstanding(calls, app, key)
  {
    if calls == [] {
    } else {
      WholeCallsLeaveNothing(calls[..|calls| - 1], app, key);
    }
  }

  lemma StoreApplies(s: Vault, app: string, key: string, secret: string, now: Time)
    requires Acceptable(app, key, secret)
    ensures
      var entry := Credential(app, key, VaultKey(app, key), secret, now);
      Step(s, Call(Store(app, key, secret, now), None)) ==
        s.(entries := s.entries[VaultKey(app, key) := entry],
           namespaces := s.namespaces[app := Added(Keys(s, app), key)])
  {
    var c := Call(Store(app, key, secret, now), None);
    TwoWrites(s, c, Writes(s, c.event)[0], Writes(s, c.event)[1]);
  }

  lemma RunOfTwo(c: Call, d: Call)
    ensures RunFrom(EMPTY, [c, d]) == Step(Step(EMPTY, c), d)
    ensures Torn(EMPTY, c) || Torn(Step(EMPTY, c), d) || !EverTorn([c, d])
  {
    assert [c, d][..1] == [c] && [c][..0] == [];
    assert RunFrom(EMPTY, [c]) == Step(RunFrom(EMPTY, []), c);
    assert !EverTorn([]);
    assert EverTorn([c]) <==> Torn(EMPTY, c);
  }

  // When one id extends another by a colon, two completed stores suffice: the second overwrites the first one's
  // credential, and the first application's index still lists it.
  lemma CollisionBreaksIndex(a: string, b: string, apps: set<string>) returns (calls: seq<Call>)
    requires a in apps && b in apps && a != "" && a + ":" <= b
    ensures Over(calls, apps) && !EverTorn(calls) && !Agrees(RunFrom(EMPTY, calls), apps)
    ensures Lookup(RunFrom(EMPTY, calls), b, "k").Some? && Lookup(RunFrom(EMPTY, calls), b, "k").value.appId == a != b
  {
    var rest := b[|a| + 1..];
    assert b == a + ":" + rest;
    var first, second := Call(Store(b, "k", "s", 0), None), Call(Store(a, rest + ":k", "s", 0), None);
    assert VaultKey(b, "k") == VaultKey(a, rest + ":k");
    calls := [first, second];
    RunOfTwo(first, second);
    StoreApplies(EMPTY, b, "k", "s", 0);
    StoreApplies(Step(EMPTY, first), a, rest + ":k", "s", 0);
    var s := RunFrom(EMPTY, calls);
    assert |a| != |b|;
    assert VaultKey(b, "k") in s.entries && !Named(s.entries, b, "k");
    assert !AppAgrees(s, b);
  }

  // For nonempty ids, which the entry schema asks for: index and entries agree after every run without a torn call if
  // and only if no id extends another by a colon.
  lemma IndexAgreesExactly(apps: set<string>)
    requires "" !in apps
    ensures (forall calls :: Over(calls, apps) && !EverTorn(calls) ==> Agrees(RunFrom(EMPTY, calls), apps))
       <==> PrefixFree(apps)
  {
    if PrefixFree(apps) {
      forall calls | Over(calls, apps) && !EverTorn(calls) ensures Agrees(RunFrom(EMPTY, calls), apps) {
        AgreesExactly(calls, apps);
        forall app, key ensures !Outstanding(calls, app, key) {
          WholeCallsLeaveNothing(calls, app, key);
        }
      }
    } else {
      var a, b :| a in apps && b in apps && a != b && a + ":" <= b;
      var calls := CollisionBreaksIndex(a, b, apps);
    }
  }

  /******* What a torn call leaves, and what repeating it does *******/

  // A torn store leaves the entry, and the index as it was. Repeating the store completes it.
  lemma TornStore(s: Vault, app: string, key: string, secret: string, now: Time)
    requires Acceptable(app, key, secret)
    ensures
      var e := Store(app, key, secret, now);
      var torn := Step(s, Call(e, Some(1)));
      && torn == s.(entries := s.entries[VaultKey(app, key) := Credential(app, key, VaultKey(app, key), secret, now)])
      && Step(torn, Call(e, None)) == Step(s, Call(e, None))
  {
    var e := Store(app, key, secret, now);
    TwoWrites(s, Call(e, Some(1)), Writes(s, e)[0], Writes(s, e)[1]);
    StoreApplies(s, app, key, secret, now);
    StoreApplies(Step(s, Call(e, Some(1))), app, key, secret, now);
  }

  // What a torn store leaves outside the index, a purge does not find.
  lemma TornStoreSurvivesPurge(s: Vault, apps: set<string>, app: string, key: string, secret: string, now: Time)
    requires PrefixFree(apps) && Sane(s, apps) && app in apps && Acceptable(app, key, secret) && key !in Keys(s, app)
    ensures
      var torn := Step(s, Call(Store(app, key, secret, now), Some(1)));
      Lookup(Step(torn, Call(Purge(app), None)), app, key) == Lookup(torn, app, key) != None
  {
    var torn := Step(s, Call(Store(app, key, secret, now), Some(1)));
    TornStore(s, app, key, secret, now);
    PurgeStep(torn, app, None);
    PurgePerformed(torn, app, None);
    PurgeDropsKey(torn, apps, app, app, key);
  }

  // A torn revocation leaves the key in the index without an entry. Repeating it changes nothing, as it finds no entry;
  // a store under the key completes both.
  lemma TornRevoke(s: Vault, app: string, key: string, again: Option<nat>)
    requires Lookup(s, app, key).Some?
    ensures
      var e := Revoke(app, key);
      var torn := Step(s, Call(e, Some(1)));
      && torn == s.(entries := s.entries - {VaultKey(app, key)})
      && Step(torn, Call(e, again)) == torn
      && (key in Keys(s, app) ==> !Settled(torn, app, key))
  {
    var e := Revoke(app, key);
    TwoWrites(s, Call(e, Some(1)), Writes(s, e)[0], Writes(s, e)[1]);
  }

  lemma StoreMends(s: Vault, app: string, key: string, secret: string, now: Time)
    requires Acceptable(app, key, secret)
    ensures Settled(Step(s, Call(Store(app, key, secret, now), None)), app, key)
  {
    StoreApplies(s, app, key, secret, now);
  }

  // A torn restore leaves the entry as backed up, or absent, and the index as it was. Repeating it completes it.
  lemma TornRestore(s: Vault, app: string, ref: string)
    requires Owns(s, app, ref)
    ensures
      var torn := Step(s, Call(Restore(app, ref), Some(1)));
      && torn == Perform(s, Writes(s, Restore(app, ref))[0])
      && Step(torn, Call(Restore(app, ref), None)) == Step(s, Call(Restore(app, ref), None))
  {
    var e := Restore(app, ref);
    var w, x := Writes(s, e)[0], Writes(s, e)[1];
    TwoWrites(s, Call(e, Some(1)), w, x);
    TwoWrites(s, Call(e, None), w, x);
    var torn := Step(s, Call(e, Some(1)));
    TwoWrites(torn, Call(e, None), w, x);
    assert Perform(torn, w).entries == torn.entries;
  }

  // A purge that failed after any number of deletes leaves the whole index. Repeating it completes it.
  lemma TornPurge(s: Vault, app: string, n: nat)
    requires !Completes(s, Call(Purge(app), Some(n)))
    ensures
      var torn := Step(s, Call(Purge(app), Some(n)));
      && torn.namespaces == s.namespaces && torn.backups == s.backups
      && Step(torn, Call(Purge(app), None)) == Step(s, Call(Purge(app), None))
  {
    var torn := Step(s, Call(Purge(app), Some(n)));
    PurgeStep(s, app, Some(n));
    PurgeStep(s, app, None);
    PurgeStep(torn, app, None);
    var once, twice := Step(s, Call(Purge(app), None)), Step(torn, Call(Purge(app), None));
    assert once.entries == twice.entries by {
      TornPurgeEntries(s, app, n);
    }
  }

  lemma TornPurgeEntries(s: Vault, app: string, n: nat)
    requires !Completes(s, Call(Purge(app), Some(n)))
    ensures
      Step(Step(s, Call(Purge(app), Some(n))), Call(Purge(app), None)).entries ==
        Step(s, Call(Purge(app), None)).entries
  {
    var torn, all := Step(s, Call(Purge(app), Some(n))), VaultKeys(app, Keys(s, app));
    PurgeStep(s, app, Some(n));
    PurgePerformed(s, app, Some(n));
    DropsContents(s.entries, app, Keys(s, app));
    PurgeTakes(s, app);
    PurgeTakes(torn, app);
    assert Keys(torn, app) == Keys(s, app);
    forall v | v in s.entries && v !in torn.entries ensures v in all {
      assert DropEntry(v) in Drops(s.entries, app, Keys(s, app));
    }
    MapsAgree(torn.entries - all, s.entries - all);
  }

  /******* Backup and restore *******/

  // Nothing in the run replaces or discards the backup.
  predicate Spares(calls: seq<Call>, ref: string) {
    forall i :: 0 <= i < |calls| ==>
      !(calls[i].event.TakeBackup? && calls[i].event.ref == ref)
        && !(calls[i].event.Discard? && calls[i].event.ref == ref)
  }

  // Writes that leave one backup alone.
  predicate SparingWrite(w: Write, ref: string) {
    !(w.PutBackup? && w.ref == ref) && !(w.DropBackup? && w.ref == ref)
  }

  lemma {:induction false} PerformSpares(s: Vault, ws: seq<Write>, ref: string)
    requires ref in s.backups && forall i :: 0 <= i < |ws| ==> SparingWrite(ws[i], ref)
    ensures ref in PerformAll(s, ws).backups && PerformAll(s, ws).backups[ref] == s.backups[ref]
  {
    if ws == [] {
    } else {
      var init := ws[..|ws| - 1];
      assert forall i :: 0 <= i < |init| ==> init[i] == ws[i];
      PerformSpares(s, init, ref);
    }
  }

  lemma {:induction false} BackupSurvives(s: Vault, calls: seq<Call>, ref: string)
    requires Spares(calls, ref) && ref in s.backups
    ensures ref in RunFrom(s, calls).backups && RunFrom(s, calls).backups[ref] == s.backups[ref]
  {
    if calls == [] {
    } else {
      var before, c := RunFrom(s, calls[..|calls| - 1]), calls[|calls| - 1];
      BackupSurvives(s, calls[..|calls| - 1], ref);
      var ws := Performed(before, c);
      forall i | 0 <= i < |ws| ensures SparingWrite(ws[i], ref) {
        assert ws[i] == Writes(before, c.event)[i];
        if c.event.Purge? {
          DropsAreDrops(before.entries, c.event.app, Keys(before, c.event.app));
        }
      }
      PerformSpares(before, ws, ref);
    }
  }

  // What a completed restore does to entries and index.
  lemma RestoreExactly(s: Vault, apps: set<string>, app: string, ref: string)
    requires PrefixFree(apps) && Sane(s, apps) && app in apps && Owns(s, app, ref)
    ensures
      var b, after := s.backups[ref], Step(s, Call(Restore(app, ref), None));
      var v := VaultKey(app, b.userKey);
      && after.backups == s.backups
      && after.entries == (if b.entry.Some? then s.entries[v := b.entry.value] else s.entries - {v})
      && (forall k :: k in Keys(after, app) <==> if k == b.userKey then b.entry.Some? else k in Keys(s, app))
      && (forall a :: a != app ==> Keys(after, a) == Keys(s, a))
  {
    var e := Restore(app, ref);
    TwoWrites(s, Call(e, None), Writes(s, e)[0], Writes(s, e)[1]);
    WithoutContents(Keys(s, app), s.backups[ref].userKey);
  }

  lemma BackupTaken(s: Vault, apps: set<string>, app: string, key: string, ref: string)
    requires PrefixFree(apps) && Sane(s, apps) && app in apps
    ensures
      var taken := Step(s, Call(TakeBackup(app, key, ref), None));
      Sane(taken, apps) && taken == s.(backups := s.backups[ref := Backup(app, key, Lookup(s, app, key))])
  {
    var c := Call(TakeBackup(app, key, ref), None);
    OneWrite(s, c, Writes(s, c.event)[0]);
    StepKeepsSane(s, c, apps);
  }

  // Whatever happens between the backup and its restore, and whatever fails in between, a completed restore brings
  // back exactly the entry, or its absence, and touches no other entry, no other application's index, and no backup.
  lemma RestoreRoundTrip(s: Vault, apps: set<string>, app: string, key: string, ref: string, calls: seq<Call>)
    requires PrefixFree(apps) && Sane(s, apps) && app in apps && Over(calls, apps) && Spares(calls, ref)
    ensures
      var between := RunFrom(Step(s, Call(TakeBackup(app, key, ref), None)), calls);
      var after := Step(between, Call(Restore(app, ref), None));
      && Owns(between, app, ref)
      && Lookup(after, app, key) == Lookup(s, app, key)
      && (forall v :: v != VaultKey(app, key) ==> (v in after.entries <==> v in between.entries))
      && (forall v :: v != VaultKey(app, key) && v in between.entries ==> after.entries[v] == between.entries[v])
      && (forall k :: k in Keys(after, app) <==>
          if k == key then Lookup(s, app, key).Some? else k in Keys(between, app))
      && (forall a :: a != app ==> Keys(after, a) == Keys(between, a))
      && after.backups == between.backups
  {
    var taken := Step(s, Call(TakeBackup(app, key, ref), None));
    var between := RunFrom(taken, calls);
    BackupTaken(s, apps, app, key, ref);
    RunKeepsSane(taken, calls, apps);
    BackupSurvives(taken, calls, ref);
    assert between.backups[ref] == Backup(app, key, Lookup(s, app, key));
    RestoreExactly(between, apps, app, ref);
  }

  // A backup is given back to, and discarded for, nobody but the application it was taken for.
  lemma ForeignBackup(s: Vault, app: string, ref: string, failAfter: Option<nat>)
    requires ref !in s.backups || s.backups[ref].appId != app
    ensures Step(s, Call(Restore(app, ref), failAfter)) == Step(s, Call(Discard(app, ref), failAfter)) == s
  {
    assert Performed(s, Call(Restore(app, ref), failAfter)) == Performed(s, Call(Discard(app, ref), failAfter)) == [];
  }

  // A completed discard takes the application's backup away, and nothing else.
  lemma DiscardExactly(s: Vault, app: string, ref: string)
    ensures Step(s, Call(Discard(app, ref), None)) ==
            if ref in s.backups && s.backups[ref].appId == app then s.(backups := s.backups - {ref}) else s
  {
    var c := Call(Discard(app, ref), None);
    if Owns(s, app, ref) {
      OneWrite(s, c, DropBackup(ref));
    } else {
      ForeignBackup(s, app, ref, None);
    }
  }

  lemma {:induction false} PerformLeavesGone(s: Vault, ws: seq<Write>, ref: string)
    requires ref !in s.backups && forall i :: 0 <= i < |ws| ==> !(ws[i].PutBackup? && ws[i].ref == ref)
    ensures ref !in PerformAll(s, ws).backups
  {
    if ws != [] {
      PerformLeavesGone(s, ws[..|ws| - 1], ref);
    }
  }

  lemma {:induction false} GoneStaysGone(s: Vault, calls: seq<Call>, ref: string)
    requires ref !in s.backups
    requires forall i :: 0 <= i < |calls| ==> !(calls[i].event.TakeBackup? && calls[i].event.ref == ref)
    ensures ref !in RunFrom(s, calls).backups
  {
    if calls != [] {
      var before, c := RunFrom(s, calls[..|calls| - 1]), calls[|calls| - 1];
      GoneStaysGone(s, calls[..|calls| - 1], ref);
      if c.event.Purge? {
        DropsAreDrops(before.entries, c.event.app, Keys(before, c.event.app));
      }
      PerformLeavesGone(before, Performed(before, c), ref);
    }
  }

  // What was discarded is gone for good: whatever is called after it, short of a new backup under the same reference,
  // a restore finds nothing to give back.
  lemma DiscardedIsGone(s: Vault, app: string, ref: string, calls: seq<Call>, other: string, failAfter: Option<nat>)
    requires Owns(s, app, ref)
    requires forall i :: 0 <= i < |calls| ==> !(calls[i].event.TakeBackup? && calls[i].event.ref == ref)
    ensures var after := RunFrom(Step(s, Call(Discard(app, ref), None)), calls);
            ref !in after.backups && Step(after, Call(Restore(other, ref), failAfter)) == after
  {
    DiscardExactly(s, app, ref);
    var discarded := Step(s, Call(Discard(app, ref), None));
    GoneStaysGone(discarded, calls, ref);
    ForeignBackup(RunFrom(discarded, calls), other, ref, failAfter);
  }

  // A store without an application, a key or a secret is refused.
  lemma StoreRefused(s: Vault, app: string, key: string, secret: string, now: Time, failAfter: Option<nat>)
    requires app == "" || key == "" || secret == ""
    ensures Step(s, Call(Store(app, key, secret, now), failAfter)) == s
  {
    assert Performed(s, Call(Store(app, key, secret, now), failAfter)) == [];
  }

  // Any other completed store is found under its own application and key, and changes no other look-up; a key that the
  // index of the application does not list yet is listed last.
  lemma StoreExactly(s: Vault, apps: set<string>, app: string, key: string, secret: string, now: Time, a: string,
                     k: string)
    requires PrefixFree(apps) && app in apps && a in apps && app != "" && key != "" && secret != ""
    ensures Lookup(Step(s, Call(Store(app, key, secret, now), None)), a, k)
         == if a == app && k == key then Some(Credential(app, key, app + ":" + key, secret, now))
           else Lookup(s, a, k)
    ensures Keys(Step(s, Call(Store(app, key, secret, now), None)), a)
         == if a == app && key !in Keys(s, a) then Keys(s, a) + [key] else Keys(s, a)
  {
    StoreApplies(s, app, key, secret, now);
    if a != app || k != key {
      KeysApart(apps, a, k, app, key);
    }
  }

  lemma RevokeApplies(s: Vault, app: string, key: string)
    ensures
      Step(s, Call(Revoke(app, key), None)) ==
        if Lookup(s, app, key).None? then s
        else s.(entries := s.entries - {VaultKey(app, key)},
                namespaces := s.namespaces[app := Without(Keys(s, app), key)])
  {
    var c := Call(Revoke(app, key), None);
    if Lookup(s, app, key).Some? {
      TwoWrites(s, c, Writes(s, c.event)[0], Writes(s, c.event)[1]);
    }
  }

  // The listed keys but one keep their order.
  lemma {:induction false} WithoutCutsOut(before: seq<string>, key: string, behind: seq<string>)
    requires key !in before && key !in behind
    ensures Without(before + [key] + behind, key) == before + behind
  {
    var keys := before + [key] + behind;
    if before == [] {
      assert keys[0] == key && keys[1..] == behind;
      WithoutLast(behind, key);
    } else {
      WithoutCutsOut(before[1..], key, behind);
      assert keys[0] == before[0] && keys[1..] == before[1..] + [key] + behind;
      assert [before[0]] + (before[1..] + behind) == before + behind;
    }
  }

  // A completed revocation makes its own look-up fail, and changes no other; a key that stood once in the index of the
  // application is cut out of it.
  lemma RevokeExactly(s: Vault, apps: set<string>, app: string, key: string, a: string, k: string)
    requires PrefixFree(apps) && app in apps && a in apps
    ensures Lookup(Step(s, Call(Revoke(app, key), None)), a, k)
         == if a == app && k == key then None else Lookup(s, a, k)
    ensures forall before, behind ::
      Lookup(s, app, key).Some? && Keys(s, app) == before + [key] + behind && key !in before && key !in behind ==>
        Keys(Step(s, Call(Revoke(app, key), None)), app) == before + behind
  {
    RevokeApplies(s, app, key);
    forall before, behind
      | Lookup(s, app, key).Some? && Keys(s, app) == before + [key] + behind && key !in before && key !in behind
      ensures Keys(Step(s, Call(Revoke(app, key), None)), app) == before + behind
    {
      WithoutCutsOut(before, key, behind);
    }
    if a != app || k != key {
      KeysApart(apps, a, k, app, key);
    }
  }

  // Revoking what was just stored where nothing was, and nothing listed, leaves entries and index as they were.
  lemma StoreThenRevoke(s: Vault, app: string, key: string, secret: string, now: Time)
    requires Acceptable(app, key, secret) && Lookup(s, app, key).None? && key !in Keys(s, app)
    ensures
      var after := Step(Step(s, Call(Store(app, key, secret, now), None)), Call(Revoke(app, key), None));
      after.entries == s.entries && (forall a :: Keys(after, a) == Keys(s, a))
  {
    var stored := Step(s, Call(Store(app, key, secret, now), None));
    StoreApplies(s, app, key, secret, now);
    RevokeApplies(stored, app, key);
    hide Step;
    assert Keys(stored, app) == Keys(s, app) + [key];
    WithoutLast(Keys(s, app), key);
    hide Without;
    assert Lookup(stored, app, key).Some?;
  }

  lemma {:induction false} WithoutLast(keys: seq<string>, key: string)
    requires key !in keys
    ensures Without(keys + [key], key) == keys == Without(keys, key)
  {
    if keys == [] {
      assert Without([key], key) == [];
    } else {
      WithoutLast(keys[1..], key);
      assert (keys + [key])[1..] == keys[1..] + [key];
    }
  }

  // One round of a purge: the next key is dropped if it is still stored.
  lemma NextDrop(s: Vault, app: string, keys: seq<string>, i: nat)
    requires i < |keys|
    ensures
      var drops, v := Drops(s.entries, app, keys[..i]), VaultKey(app, keys[i]);
      Drops(s.entries, app, keys[..i + 1]) ==
        if v in PerformAll(s, drops).entries then drops + [DropEntry(v)] else drops
  {
    assert keys[..i + 1][..i] == keys[..i];
    DropsAreDrops(s.entries, app, keys[..i]);
    PerformDrops(s, Drops(s.entries, app, keys[..i]));
  }

  // A purge that fails at a key still to be dropped has dropped the ones before it.
  lemma PurgeStops(s: Vault, app: string, keys: seq<string>, i: nat)
    requires i < |keys| && keys == Keys(s, app)
    requires |Drops(s.entries, app, keys[..i])| < |Drops(s.entries, app, keys[..i + 1])|
    ensures
      var drops := Drops(s.entries, app, keys[..i]);
      Step(s, Call(Purge(app), Some(|drops|))) == PerformAll(s, drops) && !Completes(s, Call(Purge(app), Some(|drops|)))
  {
    var drops, all := Drops(s.entries, app, keys[..i]), Drops(s.entries, app, keys);
    assert keys[..i + 1][..i] == keys[..i];
    DropsGrow(s.entries, app, keys, i);
    DropsGrow(s.entries, app, keys, i + 1);
    PurgePerformed(s, app, Some(|drops|));
    assert drops == all[..|drops|];
  }

  lemma PurgeLast(s: Vault, app: string, keys: seq<string>)
    requires keys == Keys(s, app)
    ensures
      var drops := Drops(s.entries, app, keys);
      && keys[..|keys|] == keys
      && Performed(s, Call(Purge(app), Some(|drops|))) == drops
      && (forall failAfter: Option<nat> :: failAfter.None? || failAfter.value > |drops| ==>
            Step(s, Call(Purge(app), failAfter)) == Perform(PerformAll(s, drops), PutIndex(app, [])))
  {
    var drops := Drops(s.entries, app, keys);
    PerformMore(s, drops, PutIndex(app, []));
    PurgePerformed(s, app, Some(|drops|));
    assert drops[..|drops|] == drops;
  }

  /******* The service *******/

  // Each method returns None when storage failed; the out-parameter is the result otherwise.
  class CredentialVaultService {
    var entries: map<string, Credential>
    var namespaces: map<string, seq<string>>
    var backups: map<string, Backup>

    constructor ()
      ensures Contents() == EMPTY
    {
      entries, namespaces, backups := map[], map[], map[];
    }

    ghost function Contents(): Vault
      reads this
    {
      Vault(entries, namespaces, backups)
    }

    method GetNamespace(app: string) returns (keys: seq<string>)
      ensures keys == Keys(Contents(), app)
    {
      keys := if app in namespaces then namespaces[app] else [];
    }

    method AddNamespaceKey(app: string, key: string)
      modifies this`namespaces
      ensures Contents() == Perform(old(Contents()), PutIndex(app, Added(Keys(old(Contents()), app), key)))
    {
      var keys := GetNamespace(app);
      if key !in keys {
        keys := keys + [key];
      }
      namespaces := namespaces[app := keys];
    }

    method RemoveNamespaceKey(app: string, key: string)
      modifies this`namespaces
      ensures Contents() == Perform(old(Contents()), PutIndex(app, Without(Keys(old(Contents()), app), key)))
    {
      var keys := GetNamespace(app);
      namespaces := namespaces[app := Without(keys, key)];
    }

    // The reference of the new credential; None if the entry is refused by its schema, too.
    method StoreCredential(app: string, key: string, secret: string, now: Time, failAfter: Option<nat>)
      returns (credentialRef: Option<string>)
      modifies this
      ensures Contents() == Step(old(Contents()), Call(Store(app, key, secret, now), failAfter))
      ensures credentialRef ==
              if Acceptable(app, key, secret)
                && Completes(old(Contents()), Call(Store(app, key, secret, now), failAfter))
              then Some("credential:" + VaultKey(app, key)) else None
    {
      if !Acceptable(app, key, secret) {
        return None;
      }
      var vaultKey := VaultKey(app, key);
      ghost var s, c := Contents(), Call(Store(app, key, secret, now), failAfter);
      TwoWrites(s, c, Writes(s, c.event)[0], Writes(s, c.event)[1]);
      if failAfter == Some(0) {
        return None;
      }
      entries := entries[vaultKey := Credential(app, key, vaultKey, secret, now)];
      if failAfter == Some(1) {
        return None;
      }
      AddNamespaceKey(app, key);
      credentialRef := Some("credential:" + vaultKey);
    }

    method RevokeCredential(app: string, key: string, failAfter: Option<nat>) returns (revoked: Option<bool>)
      modifies this
      ensures Contents() == Step(old(Contents()), Call(Revoke(app, key), failAfter))
      ensures revoked ==
              if Completes(old(Contents()), Call(Revoke(app, key), failAfter))
              then Some(VaultKey(app, key) in old(entries)) else None
    {
      var vaultKey := VaultKey(app, key);
      if vaultKey !in entries {
        return Some(false);
      }
      ghost var s, c := Contents(), Call(Revoke(app, key), failAfter);
      TwoWrites(s, c, Writes(s, c.event)[0], Writes(s, c.event)[1]);
      if failAfter == Some(0) {
        return None;
      }
      entries := entries - {vaultKey};
      if failAfter == Some(1) {
        return None;
      }
      RemoveNamespaceKey(app, key);
      revoked := Some(true);
    }

    method BackupCredential(app: string, key: string, ref: string, failAfter: Option<nat>)
      returns (existed: Option<bool>)
      modifies this`backups
      ensures Contents() == Step(old(Contents()), Call(TakeBackup(app, key, ref), failAfter))
      ensures existed == if failAfter == Some(0) then None else Some(VaultKey(app, key) in entries)
    {
      var vaultKey := VaultKey(app, key);
      var entry := if vaultKey in entries then Some(entries[vaultKey]) else None;
      ghost var s, c := Contents(), Call(TakeBackup(app, key, ref), failAfter);
      OneWrite(s, c, Writes(s, c.event)[0]);
      if failAfter == Some(0) {
        return None;
      }
      backups := backups[ref := Backup(app, key, entry)];
      existed := Some(entry.Some?);
    }

    method RestoreBackup(app: string, ref: string, failAfter: Option<nat>) returns (restored: Option<bool>)
      modifies this
      ensures Contents() == Step(old(Contents()), Call(Restore(app, ref), failAfter))
      ensures restored ==
              if Completes(old(Contents()), Call(Restore(app, ref), failAfter))
              then Some(Owns(old(Contents()), app, ref)) else None
    {
      if ref !in backups || backups[ref].appId != app {
        return Some(false);
      }
      var backup := backups[ref];
      ghost var s, c := Contents(), Call(Restore(app, ref), failAfter);
      TwoWrites(s, c, Writes(s, c.event)[0], Writes(s, c.event)[1]);
      if failAfter == Some(0) {
        return None;
      }
      if backup.entry.Some? {
        entries := entries[backup.entry.value.vaultKey := backup.entry.value];
        if failAfter == Some(1) {
          return None;
        }
        AddNamespaceKey(app, backup.entry.value.userKey);
        return Some(true);
      }
      entries := entries - {VaultKey(app, backup.userKey)};
      if failAfter == Some(1) {
        return None;
      }
      RemoveNamespaceKey(app, backup.userKey);
      restored := Some(true);
    }

    method DiscardBackup(app: string, ref: string, failAfter: Option<nat>) returns (discarded: Option<bool>)
      modifies this`backups
      ensures Contents() == Step(old(Contents()), Call(Discard(app, ref), failAfter))
      ensures discarded ==
              if Completes(old(Contents()), Call(Discard(app, ref), failAfter))
              then Some(Owns(old(Contents()), app, ref)) else None
    {
      if ref !in backups || backups[ref].appId != app {
        return Some(false);
      }
      OneWrite(Contents(), Call(Discard(app, ref), failAfter), DropBackup(ref));
      if failAfter == Some(0) {
        return None;
      }
      backups := backups - {ref};
      discarded := Some(true);
    }

    method PurgeNamespace(app: string, failAfter: Option<nat>) returns (purged: Option<nat>)
      modifies this
      ensures Contents() == Step(old(Contents()), Call(Purge(app), failAfter))
      ensures purged ==
              if Completes(old(Contents()), Call(Purge(app), failAfter))
              then Some(|Drops(old(entries), app, Keys(old(Contents()), app))|) else None
    {
      var keys := GetNamespace(app);
      ghost var s := Contents();
      var count := 0;
      assert Drops(s.entries, app, keys[..0]) == [] && PerformAll(s, []) == s;
      hide Drops, PerformAll;
      for i := 0 to |keys|
        invariant Contents() == PerformAll(s, Drops(s.entries, app, keys[..i]))
        invariant count == |Drops(s.entries, app, keys[..i])|
        invariant failAfter.Some? ==> count <= failAfter.value
      {
        NextDrop(s, app, keys, i);
        ghost var drops := Drops(s.entries, app, keys[..i]);
        var vaultKey := VaultKey(app, keys[i]);
        if vaultKey !in entries {
          continue;
        }
        if failAfter == Some(count) {
          PurgeStops(s, app, keys, i);
          return None;
        }
        PerformMore(s, drops, DropEntry(vaultKey));
        entries := entries - {vaultKey};
        count := count + 1;
      }
      PurgeLast(s, app, keys);
      if failAfter == Some(count) {
        return None;
      }
      namespaces := namespaces[app := []];
      purged := Some(count);
    }
  }
}
