/** Whole runs of the attachment cache: mobile/src/attachmentCache.ts with clearCachedMedia of
    mobile/src/storageUsage.ts, one operation after another. */
module CacheRuns {
  import opened Wrappers
  import opened CachePruning
  import opened AttachmentCache
  import opened CacheIndexFile
  import opened StorageUsage

  /** No two keys share a path. The source hashes keys into paths and relies on this. */
  ghost predicate PathsTellKeysApart(pathOf: (string, string) -> string) {
    forall j, k, e, f :: pathOf(j, e) == pathOf(k, f) ==> j == k
  }

  ghost predicate OwnPath(pathOf: (string, string) -> string, key: string, path: string) {
    exists extension :: pathOf(key, extension) == path
  }

  /** Every entry's file is where its key puts it. */
  ghost predicate Placed(pathOf: (string, string) -> string, index: Index) {
    forall k :: k in index ==> OwnPath(pathOf, k, index[k].path)
  }

  lemma PartIsPlaced(pathOf: (string, string) -> string, m: Index, n: Index)
    requires Placed(pathOf, m) && PartOf(n, m)
    ensures Placed(pathOf, n)
  {
    forall k | k in n
      ensures OwnPath(pathOf, k, n[k].path)
    {
      assert OwnPath(pathOf, k, m[k].path);
    }
  }

  lemma PlacedIsFree(pathOf: (string, string) -> string, m: Index, key: string, extension: string)
    requires Placed(pathOf, m) && PathsTellKeysApart(pathOf)
    ensures PathFree(m, key, pathOf(key, extension))
  {
    forall k | k in m && m[k].path == pathOf(key, extension)
      ensures k == key
    {
      assert OwnPath(pathOf, k, m[k].path);
      var e :| pathOf(k, e) == m[k].path;
    }
  }

  lemma StoredIsPlaced(pathOf: (string, string) -> string, m: Index, entry: Entry, extension: string, now: int,
                       n: Index)
    requires Keyed(m) && Placed(pathOf, m) && entry.path == pathOf(entry.key, extension)
    requires PrunedTo(m[entry.key := entry], now, n)
    ensures Placed(pathOf, n)
  {
    PrunedFacts(m[entry.key := entry], now, n);
    assert OwnPath(pathOf, entry.key, entry.path);
    PartIsPlaced(pathOf, m[entry.key := entry], n);
  }

  // ----- what one operation does -----

  datatype Operation =
    | FindOp(key: string, now: int)
    | RememberOp(key: string, extension: string, source: seq<Byte>, messageId: Option<string>,
                 labelText: Option<string>, now: int)
    | EvictOp(key: string) | EvictForMessageOp(message: string) | PruneMissingOp
    | ClearOp(now: int, files: seq<StoredFile>) | RestartOp
    /** A `RememberOp` whose copy or `stat` fails, leaving these bytes if any. */
    | FailedCopyOp(key: string, extension: string, left: Option<seq<Byte>>)

  /** An operation, and what goes wrong with the files during it. */
  datatype Step = Step(op: Operation, faults: Faults)

  /** What a caller gets: the entry found with the bytes of its file, or whether a copy was kept. */
  datatype Result = Found(hit: Option<(Entry, seq<Byte>)>) | Kept(stored: bool) | Finished

  datatype State = State(index: Index, disk: Disk, remembered: Copies, withdrawn: set<string>) {
    ghost function View(): Disk {
      ViewOf(index, disk)
    }

    ghost predicate Sound() {
      AttachmentCache.Sound(index, disk, remembered, withdrawn)
    }
  }

  ghost predicate SameHistory(s: State, t: State) {
    t.remembered == s.remembered && t.withdrawn == s.withdrawn
  }

  /** A hit is the visible, unexpired entry, touched; a miss drops the key. */
  ghost predicate FindEffect(key: string, now: int, faults: Faults, s: State, t: State,
                             hit: Option<(Entry, seq<Byte>)>)
  {
    && SameHistory(s, t)
    && (hit.Some? ==>
          && key in s.View() && hit.value == (s.index[key].(lastUsedAtMs := now), s.View()[key])
          && !Expired(s.index[key], now) && t.index == s.index[key := hit.value.0] && t.View() == s.View())
    && (hit.None? ==> t.index == s.index - {key} && t.View() == s.View() - {key})
    && (hit.Some? <==> key in s.View() && !Expired(s.index[key], now) && s.index[key].path !in faults.unseen)
    && t.disk == s.disk - (if key in s.index && Expired(s.index[key], now) then
                             {s.index[key].path} - faults.unseen - faults.locked
                           else {})
  }

  function Filing(pathOf: (string, string) -> string, op: Operation): Entry
    requires op.RememberOp?
  {
    Entry(op.key, op.messageId, pathOf(op.key, op.extension), op.labelText, |op.source|, op.now, op.now)
  }

  ghost predicate RememberEffect(pathOf: (string, string) -> string, op: Operation, faults: Faults, s: State, t: State,
                                 stored: bool)
    requires op.RememberOp?
  {
    var entry := Filing(pathOf, op);
    && (stored ==>
          && PrunedTo(s.index[op.key := entry], op.now, t.index)
          && t.remembered == s.remembered[op.key := Copy(op.source, true)]
          && t.withdrawn == s.withdrawn - (if op.messageId.Some? then {op.messageId.value} else {})
          && t.View() == s.View()[op.key := op.source] - (s.index.Keys + {op.key} - t.index.Keys))
    && (!stored ==> t == s)
    && (stored <==> op.key != "" && !faults.blocked)
    && (stored ==> Swept(s.index[op.key := entry], t.index, t.disk, faults.locked))
  }

  /** The index is as it was, and every other key's hit. */
  ghost predicate FailedCopyEffect(path: string, op: Operation, s: State, t: State)
    requires op.FailedCopyOp?
  {
    && t.index == s.index && t.withdrawn == s.withdrawn && t.disk == AfterFailedCopy(s.disk, path, op.left)
    && t.remembered == RecordFailed(s.index, s.remembered, op.key, path, op.left)
    && t.View() - {op.key} == s.View() - {op.key}
    && (!FiledAt(s.index, op.key, path) ==> t.View() == s.View())
  }

  ghost predicate EvictEffect(key: string, faults: Faults, s: State, t: State) {
    && SameHistory(s, t) && t.index == s.index - {key} && t.View() == s.View() - {key}
    && t.disk == s.disk - (if key in s.index then {s.index[key].path} - faults.locked else {})
  }

  ghost predicate EvictForMessageEffect(message: string, faults: Faults, s: State, t: State) {
    if message == "" then SameHistory(s, t) && t.index == s.index && t.View() == s.View()
    else
      && t.remembered == s.remembered && t.withdrawn == s.withdrawn + {message}
      && t.index == WithoutMessage(s.index, message)
      && t.View() == s.View() - (s.index.Keys - t.index.Keys)
      && Swept(s.index, t.index, t.disk, faults.locked)
  }

  /** Entries whose files are gone are dropped. */
  ghost predicate PruneMissingEffect(faults: Faults, s: State, t: State) {
    && SameHistory(s, t) && t.disk == s.disk
    && (forall k :: k in t.index ==> k in s.index && t.index[k] == s.index[k])
    && (forall k :: k in s.index ==> (k in t.index <==> s.index[k].path in s.disk && s.index[k].path !in faults.unseen))
  }

  ghost predicate ListedClearable(files: seq<StoredFile>, now: int, path: string) {
    exists f :: f in files && Clearable(f, now) && f.path == path
  }

  /** Old media files go, and with them the entries that name them. */
  ghost predicate ClearEffect(now: int, files: seq<StoredFile>, faults: Faults, s: State, t: State) {
    && SameHistory(s, t) && FilesOf(t.disk, s.disk) && PartOf(t.index, s.index)
    && (forall k :: k in t.index ==> t.index[k] == s.index[k] && t.index[k].path in t.disk)
    && (forall p :: p in s.disk && p !in t.disk ==> ListedClearable(files, now, p))
    && AllClearableGone(files, now, t.disk, faults.locked)
    && (forall k :: k in s.index ==> (k in t.index <==> s.index[k].path in t.disk && s.index[k].path !in faults.unseen))
  }

  ghost predicate RestartEffect(s: State, t: State) {
    SameHistory(s, t) && t.disk == s.disk && t.index == ReloadedIndex(s.index)
  }

  ghost predicate OwnEffect(pathOf: (string, string) -> string, step: Step, s: State, t: State, r: Result) {
    match step.op
    case FindOp(key, now) => r.Found? && FindEffect(key, now, step.faults, s, t, r.hit)
    case RememberOp(_, _, _, _, _, _) => r.Kept? && RememberEffect(pathOf, step.op, step.faults, s, t, r.stored)
    case EvictOp(key) => r.Finished? && EvictEffect(key, step.faults, s, t)
    case EvictForMessageOp(message) => r.Finished? && EvictForMessageEffect(message, step.faults, s, t)
    case PruneMissingOp => r.Finished? && PruneMissingEffect(step.faults, s, t)
    case ClearOp(now, files) => r.Finished? && ClearEffect(now, files, step.faults, s, t)
    case RestartOp => r.Finished? && RestartEffect(s, t)
    case FailedCopyOp(key, extension, _) =>
      r == Kept(false) && FailedCopyEffect(pathOf(key, extension), step.op, s, t)
  }

  /** One step: from a sound state to a sound state, with the effect of its operation. */
  ghost predicate Effect(pathOf: (string, string) -> string, step: Step, s: State, t: State, r: Result) {
    s.Sound() && t.Sound() && OwnEffect(pathOf, step, s, t, r)
  }

  // ----- what a script does -----

  /** `states` are the states a script passes through, one effect after another, giving `results`. */
  ghost predicate Passes(pathOf: (string, string) -> string, script: seq<Step>, states: seq<State>,
                         results: seq<Result>)
    decreases script
  {
    && |states| == |script| + 1 && |results| == |script|
    && (script != [] ==>
          var n := |script| - 1;
          Passes(pathOf, script[..n], states[..n + 1], results[..n])
          && Effect(pathOf, script[n], states[n], states[n + 1], results[n]))
  }

  /** The bytes last kept for each key. */
  function LastKept(script: seq<Step>, results: seq<Result>): Disk
    requires |results| == |script|
  {
    if script == [] then map[]
    else
      var n := |script| - 1;
      var before := LastKept(script[..n], results[..n]);
      if script[n].op.RememberOp? && results[n] == Kept(true) then before[script[n].op.key := script[n].op.source]
      else before
  }

  /** The messages evicted and not remembered for since. */
  function Withdrawn(script: seq<Step>, results: seq<Result>): set<string>
    requires |results| == |script|
  {
    if script == [] then {}
    else
      var n := |script| - 1;
      var before := Withdrawn(script[..n], results[..n]);
      match script[n].op
      case EvictForMessageOp(message) => if message == "" then before else before + {message}
      case RememberOp(_, _, _, messageId, _, _) =>
        if results[n] == Kept(true) && messageId.Some? then before - {messageId.value} else before
      case _ => before
  }

  /** What is on record for each key: the bytes last kept, or those a later copy left that failed while the
      key was filed under the path it copied to. */
  ghost function OnRecord(pathOf: (string, string) -> string, script: seq<Step>, states: seq<State>,
                          results: seq<Result>): Copies
    requires |results| == |script| && |states| == |script| + 1
  {
    if script == [] then map[]
    else
      var n := |script| - 1;
      var before := OnRecord(pathOf, script[..n], states[..n + 1], results[..n]);
      match script[n].op
      case RememberOp(key, _, source, _, _, _) =>
        if results[n] == Kept(true) then before[key := Copy(source, true)] else before
      case FailedCopyOp(key, extension, left) =>
        RecordFailed(states[n].index, before, key, pathOf(key, extension), left)
      case _ => before
  }

  /** The ghost history of a run is what the script says it is. */
  lemma {:induction false} HistoryOfScript(pathOf: (string, string) -> string, script: seq<Step>, states: seq<State>,
                                           results: seq<Result>)
    requires Passes(pathOf, script, states, results)
    requires states[0].remembered == map[] && states[0].withdrawn == {}
    ensures states[|script|].remembered == OnRecord(pathOf, script, states, results)
    ensures states[|script|].withdrawn == Withdrawn(script, results)
  {
    if script != [] {
      var n := |script| - 1;
      HistoryOfScript(pathOf, script[..n], states[..n + 1], results[..n]);
    }
  }

  /** Step `i` is a failed copy that left bytes where an entry under `key` would find them. */
  ghost predicate Spoils(pathOf: (string, string) -> string, script: seq<Step>, states: seq<State>, i: nat, key: string)
    requires i < |script| && |states| == |script| + 1
  {
    && script[i].op.FailedCopyOp? && script[i].op.key == key && script[i].op.left.Some?
    && FiledAt(states[i].index, key, pathOf(key, script[i].op.extension))
  }

  predicate Keeps(script: seq<Step>, results: seq<Result>, i: nat, key: string)
    requires i < |script| == |results|
  {
    script[i].op.RememberOp? && script[i].op.key == key && results[i] == Kept(true)
  }

  /** The bytes a failed copy left at step `i`, after which no step kept or left others. */
  ghost predicate SpoiledAt(pathOf: (string, string) -> string, script: seq<Step>, states: seq<State>,
                            results: seq<Result>, i: int, key: string, bytes: seq<Byte>)
    requires |results| == |script| && |states| == |script| + 1
  {
    && 0 <= i < |script| && Spoils(pathOf, script, states, i, key) && script[i].op.left == Some(bytes)
    && forall j :: i < j < |script| ==> !Keeps(script, results, j, key) && !Spoils(pathOf, script, states, j, key)
  }

  /** Since the bytes of `key` were last kept, if they were, a failed copy left these, the last to do so. */
  ghost predicate Spoiled(pathOf: (string, string) -> string, script: seq<Step>, states: seq<State>,
                          results: seq<Result>, key: string, bytes: seq<Byte>)
    requires |results| == |script| && |states| == |script| + 1
  {
    exists i :: SpoiledAt(pathOf, script, states, results, i, key, bytes)
  }

  /** What is on record for a key is what the last step to keep or spoil it gave: whole, the bytes last kept. */
  lemma {:induction false} RecordOf(pathOf: (string, string) -> string, script: seq<Step>, states: seq<State>,
                                    results: seq<Result>, key: string)
    requires |results| == |script| && |states| == |script| + 1
    ensures var record, kept := OnRecord(pathOf, script, states, results), LastKept(script, results);
            key in record ==>
              if record[key].whole then key in kept && record[key].bytes == kept[key]
              else Spoiled(pathOf, script, states, results, key, record[key].bytes)
  {
    if script != [] {
      var n := |script| - 1;
      RecordOf(pathOf, script[..n], states[..n + 1], results[..n], key);
      var record := OnRecord(pathOf, script, states, results);
      if key in record && !record[key].whole {
        SpoiledOn(pathOf, script, states, results, key, record[key].bytes);
      }
    }
  }

  lemma SpoiledOn(pathOf: (string, string) -> string, script: seq<Step>, states: seq<State>, results: seq<Result>,
                  key: string, bytes: seq<Byte>)
    requires script != [] && |script| == |results| && |states| == |script| + 1
    requires !Keeps(script, results, |script| - 1, key)
    requires if Spoils(pathOf, script, states, |script| - 1, key) then script[|script| - 1].op.left == Some(bytes)
             else Spoiled(pathOf, script[..|script| - 1], states[..|script|], results[..|script| - 1], key, bytes)
    ensures Spoiled(pathOf, script, states, results, key, bytes)
  {
    var n := |script| - 1;
    if Spoils(pathOf, script, states, n, key) {
      assert SpoiledAt(pathOf, script, states, results, n, key, bytes);
      return;
    }
    var i :| SpoiledAt(pathOf, script[..n], states[..n + 1], results[..n], i, key, bytes);
    forall j | i < j < n
      ensures !Keeps(script, results, j, key) && !Spoils(pathOf, script, states, j, key)
    {
      assert !Keeps(script[..n], results[..n], j, key) && !Spoils(pathOf, script[..n], states[..n + 1], j, key);
    }
    assert SpoiledAt(pathOf, script, states, results, i, key, bytes);
  }

  lemma {:induction false} PrefixPasses(pathOf: (string, string) -> string, script: seq<Step>, states: seq<State>,
                                        results: seq<Result>, i: nat)
    requires Passes(pathOf, script, states, results) && i < |script|
    ensures Passes(pathOf, script[..i], states[..i + 1], results[..i])
    ensures Effect(pathOf, script[i], states[i], states[i + 1], results[i])
    decreases script
  {
    var n := |script| - 1;
    if i < n {
      PrefixPasses(pathOf, script[..n], states[..n + 1], results[..n], i);
      assert script[..n][..i] == script[..i] && states[..n + 1][..i + 1] == states[..i + 1];
      assert results[..n][..i] == results[..i];
    }
  }

  /** A hit returns what is on record for its key, and never an entry of a message evicted since it was last
      remembered for. */
  lemma HitIsOnRecord(pathOf: (string, string) -> string, script: seq<Step>, states: seq<State>, results: seq<Result>,
                      i: nat)
    requires Passes(pathOf, script, states, results) && i < |script|
    requires states[0].remembered == map[] && states[0].withdrawn == {}
    requires script[i].op.FindOp? && results[i].Found? && results[i].hit.Some?
    ensures var key, hit := script[i].op.key, results[i].hit.value;
            var record := OnRecord(pathOf, script[..i], states[..i + 1], results[..i]);
            key in record && hit.1 == record[key].bytes
            && (hit.0.messageId.Some? ==> hit.0.messageId.value !in Withdrawn(script[..i], results[..i]))
  {
    PrefixPasses(pathOf, script, states, results, i);
    HistoryOfScript(pathOf, script[..i], states[..i + 1], results[..i]);
    var s, key := states[i], script[i].op.key;
    assert key in s.View();
    assert Faithful(s.index[key], s.disk, s.remembered);
  }

  /** So a hit returns the bytes last kept for its key, unless a copy that failed since, while the key was
      filed under the path it copied to, left others: then it returns those. */
  lemma HitIsLastKept(pathOf: (string, string) -> string, script: seq<Step>, states: seq<State>, results: seq<Result>,
                      i: nat)
    requires Passes(pathOf, script, states, results) && i < |script|
    requires states[0].remembered == map[] && states[0].withdrawn == {}
    requires script[i].op.FindOp? && results[i].Found? && results[i].hit.Some?
    ensures var key, bytes := script[i].op.key, results[i].hit.value.1;
            var kept := LastKept(script[..i], results[..i]);
            || (key in kept && bytes == kept[key])
            || Spoiled(pathOf, script[..i], states[..i + 1], results[..i], key, bytes)
  {
    HitIsOnRecord(pathOf, script, states, results, i);
    PrefixPasses(pathOf, script, states, results, i);
    RecordOf(pathOf, script[..i], states[..i + 1], results[..i], script[i].op.key);
  }

  /** A copy that fails right after a miss spoils nothing: the miss dropped the entry. */
  lemma MissThenCopyIsSafe(pathOf: (string, string) -> string, script: seq<Step>, states: seq<State>,
                           results: seq<Result>, i: nat)
    requires Passes(pathOf, script, states, results) && i + 1 < |script|
    requires script[i].op.FindOp? && results[i] == Found(None)
    ensures !Spoils(pathOf, script, states, i + 1, script[i].op.key)
  {
    PrefixPasses(pathOf, script, states, results, i);
  }

  // ----- how long an entry lasts -----

  /** When what is kept for a key was cached and last used. */
  datatype Use = Use(cachedAt: int, usedAt: int)

  /** The step keeps bytes for this key, or hands them out. */
  predicate UsesKey(step: Step, r: Result, key: string) {
    || (step.op.RememberOp? && step.op.key == key && r == Kept(true))
    || (step.op.FindOp? && step.op.key == key && r.Found? && r.hit.Some?)
  }

  function RestartedUses(before: map<string, Use>): map<string, Use> {
    map k | k in before :: if before[k].usedAt == 0 then before[k].(usedAt := before[k].cachedAt) else before[k]
  }

  function UseOf(step: Step, r: Result, before: map<string, Use>): map<string, Use> {
    match step.op
    case RememberOp(key, _, _, _, _, now) => if UsesKey(step, r, key) then before[key := Use(now, now)] else before
    case FindOp(key, now) =>
      if UsesKey(step, r, key) && key in before then before[key := before[key].(usedAt := now)] else before
    case RestartOp => RestartedUses(before)
    case _ => before
  }

  /** When each key was last kept or handed out. A restart takes a use at time 0 for none since caching. */
  function UsesAfter(script: seq<Step>, results: seq<Result>): map<string, Use>
    requires |results| == |script|
  {
    if script == [] then map[]
    else
      var n := |script| - 1;
      UseOf(script[n], results[n], UsesAfter(script[..n], results[..n]))
  }

  ghost predicate UsesRecorded(index: Index, uses: map<string, Use>) {
    forall k :: k in index ==> k in uses && uses[k] == Use(index[k].cachedAtMs, index[k].lastUsedAtMs)
  }

  lemma UseStep(pathOf: (string, string) -> string, step: Step, s: State, t: State, r: Result, uses: map<string, Use>)
    requires Keyed(s.index) && OwnEffect(pathOf, step, s, t, r) && UsesRecorded(s.index, uses)
    ensures UsesRecorded(t.index, UseOf(step, r, uses))
  {
    match step.op
    case RememberOp(key, _, _, _, _, now) =>
      if r.stored {
        KeptUses(s.index, Filing(pathOf, step.op), now, t.index, uses);
      }
    case FindOp(key, now) => FoundUses(step, r, s.index, t.index, uses);
    case RestartOp => RestartUses(s.index, uses);
    case _ =>
      NarrowStep(pathOf, step, s, t, r);
      NarrowUses(s.index, t.index, uses);
  }

  ghost predicate Narrows(m: Index, n: Index) {
    forall k :: k in n ==> k in m && n[k] == m[k]
  }

  /** The other operations only drop entries. */
  lemma NarrowStep(pathOf: (string, string) -> string, step: Step, s: State, t: State, r: Result)
    requires OwnEffect(pathOf, step, s, t, r) && !step.op.RememberOp? && !step.op.FindOp? && !step.op.RestartOp?
    ensures Narrows(s.index, t.index)
  {
    match step.op
    case EvictOp(key) => assert t.index == s.index - {key};
    case EvictForMessageOp(message) =>
      assert t.index == s.index || t.index == WithoutMessage(s.index, message);
    case PruneMissingOp =>
    case ClearOp(now, files) =>
    case FailedCopyOp(_, _, _) => assert t.index == s.index;
  }

  lemma NarrowUses(m: Index, n: Index, uses: map<string, Use>)
    requires UsesRecorded(m, uses) && Narrows(m, n)
    ensures UsesRecorded(n, uses)
  {
  }

  lemma KeptUses(m: Index, entry: Entry, now: int, n: Index, uses: map<string, Use>)
    requires Keyed(m) && UsesRecorded(m, uses) && PrunedTo(m[entry.key := entry], now, n)
    requires entry.cachedAtMs == now == entry.lastUsedAtMs
    ensures UsesRecorded(n, uses[entry.key := Use(now, now)])
  {
    PrunedFacts(m[entry.key := entry], now, n);
  }

  lemma FoundUses(step: Step, r: Result, m: Index, n: Index, uses: map<string, Use>)
    requires step.op.FindOp? && r.Found? && UsesRecorded(m, uses)
    requires if r.hit.Some? then
               step.op.key in m && n == m[step.op.key := m[step.op.key].(lastUsedAtMs := step.op.now)]
             else n == m - {step.op.key}
    ensures UsesRecorded(n, UseOf(step, r, uses))
  {
  }

  lemma RestartUses(m: Index, uses: map<string, Use>)
    requires UsesRecorded(m, uses)
    ensures UsesRecorded(ReloadedIndex(m), RestartedUses(uses))
  {
  }

  lemma {:induction false} UsesOfScript(pathOf: (string, string) -> string, script: seq<Step>, states: seq<State>,
                                        results: seq<Result>)
    requires Passes(pathOf, script, states, results) && states[0].index == map[]
    ensures UsesRecorded(states[|script|].index, UsesAfter(script, results))
  {
    if script != [] {
      var n := |script| - 1;
      UsesOfScript(pathOf, script[..n], states[..n + 1], results[..n]);
      UseStep(pathOf, script[n], states[n], states[n + 1], results[n], UsesAfter(script[..n], results[..n]));
    }
  }

  /** A visible key is a hit exactly until fourteen days have passed since it was last kept or handed out. */
  lemma HitIffFresh(pathOf: (string, string) -> string, script: seq<Step>, states: seq<State>, results: seq<Result>,
                    i: nat)
    requires Passes(pathOf, script, states, results) && i < |script| && states[0].index == map[]
    requires script[i].op.FindOp? && script[i].op.key in states[i].View()
    requires states[i].index[script[i].op.key].path !in script[i].faults.unseen
    ensures var key, uses := script[i].op.key, UsesAfter(script[..i], results[..i]);
            && key in uses && results[i].Found?
            && (results[i].hit.Some? <==> script[i].op.now - uses[key].usedAt < 1_209_600_000)
  {
    PrefixPasses(pathOf, script, states, results, i);
    UsesOfScript(pathOf, script[..i], states[..i + 1], results[..i]);
  }

  /** That time is the time of the last step to keep or hand out the key, through any restarts. */
  lemma {:induction false} LastUse(script: seq<Step>, results: seq<Result>, i: nat, key: string)
    requires i < |script| == |results| && UsesKey(script[i], results[i], key) && script[i].op.now != 0
    requires forall j :: i < j < |script| ==> !UsesKey(script[j], results[j], key)
    requires key in UsesAfter(script, results)
    ensures UsesAfter(script, results)[key].usedAt == script[i].op.now
    decreases script
  {
    var n := |script| - 1;
    if i < n {
      assert !UsesKey(script[n], results[n], key);
      LastUse(script[..n], results[..n], i, key);
    }
  }

  // ----- the operations, one after another -----

  ghost function Snapshot(cache: Cache): State
    reads cache
  {
    State(cache.index, cache.disk, cache.remembered, cache.withdrawn)
  }

  /** From an empty index, through any operations and restarts, with any of them failing on its files: the
      run passes through sound states with the effect of each operation in turn. */
  method Run(pathOf: (string, string) -> string, disk: Disk, script: seq<Step>)
    returns (cache: Cache, results: seq<Result>, ghost states: seq<State>)
    requires PathsTellKeysApart(pathOf)
    ensures Passes(pathOf, script, states, results)
    ensures states[0] == State(map[], disk, map[], {}) && states[|script|] == Snapshot(cache)
    ensures cache.remembered == OnRecord(pathOf, script, states, results)
    ensures cache.withdrawn == Withdrawn(script, results)
    ensures cache.Valid() && TotalSize(cache.index) <= MAX_BYTES
  {
    cache := new Cache(pathOf, disk);
    results, states := [], [Snapshot(cache)];
    for i := 0 to |script|
      invariant fresh(cache) && cache.Valid() && cache.pathOf == pathOf && Placed(pathOf, cache.index)
      invariant Passes(pathOf, script[..i], states, results)
      invariant states[0] == State(map[], disk, map[], {}) && states[i] == Snapshot(cache)
    {
      var r := Perform(cache, script[i]);
      ghost var states0, results0 := states, results;
      results, states := results + [r], states + [Snapshot(cache)];
      PassesOn(pathOf, script, i, states0, results0, Snapshot(cache), r, states, results);
    }
    assert script[..|script|] == script;
    HistoryOfScript(pathOf, script, states, results);
    WithinLimitIff(cache.index);
  }

  lemma PassesOn(pathOf: (string, string) -> string, script: seq<Step>, i: nat, states: seq<State>,
                 results: seq<Result>, t: State, r: Result, states': seq<State>, results': seq<Result>)
    requires i < |script| && Passes(pathOf, script[..i], states, results)
    requires Effect(pathOf, script[i], states[i], t, r) && states' == states + [t] && results' == results + [r]
    ensures Passes(pathOf, script[..i + 1], states', results') && states'[0] == states[0] && states'[i + 1] == t
  {
    assert script[..i + 1][..i] == script[..i] && states'[..i + 1] == states && results'[..i] == results;
  }

  method Perform(cache: Cache, step: Step) returns (r: Result)
    requires cache.Valid() && Placed(cache.pathOf, cache.index) && PathsTellKeysApart(cache.pathOf)
    modifies cache
    ensures cache.Valid() && Placed(cache.pathOf, cache.index)
    ensures Effect(cache.pathOf, step, old(Snapshot(cache)), Snapshot(cache), r)
  {
    cache.faults := step.faults;
    match step.op {
      case FindOp(key, now) => r := PerformFind(cache, key, now);
      case RememberOp(_, _, _, _, _, _) => r := PerformRemember(cache, step.op);
      case EvictOp(key) => r := PerformEvict(cache, key);
      case EvictForMessageOp(message) => r := PerformEvictForMessage(cache, message);
      case PruneMissingOp => r := PerformPruneMissing(cache);
      case ClearOp(now, files) => r := PerformClear(cache, now, files);
      case RestartOp =>
        ReloadedIsPart(cache.index);
        PartIsPlaced(cache.pathOf, cache.index, ReloadedIndex(cache.index));
        Restart(cache, s => 0);
        r := Finished;
      case FailedCopyOp(key, extension, left) =>
        PlacedIsFree(cache.pathOf, cache.index, key, extension);
        cache.FailToRemember(key, extension, left);
        r := Kept(false);
    }
  }

  method PerformFind(cache: Cache, key: string, now: int) returns (r: Result)
    requires cache.Valid() && Placed(cache.pathOf, cache.index)
    modifies cache`index, cache`disk
    ensures cache.Valid() && Placed(cache.pathOf, cache.index)
    ensures r.Found? && FindEffect(key, now, cache.faults, old(Snapshot(cache)), Snapshot(cache), r.hit)
  {
    var entry := cache.Find(key, now);
    PartIsPlaced(cache.pathOf, old(cache.index), cache.index);
    if entry.None? {
      return Found(None);
    }
    assert key in cache.View();
    return Found(Some((entry.value, cache.disk[entry.value.path])));
  }

  method PerformRemember(cache: Cache, op: Operation) returns (r: Result)
    requires op.RememberOp? && cache.Valid() && Placed(cache.pathOf, cache.index) && PathsTellKeysApart(cache.pathOf)
    modifies cache`index, cache`disk, cache`remembered, cache`withdrawn
    ensures cache.Valid() && Placed(cache.pathOf, cache.index)
    ensures r.Kept?
    ensures RememberEffect(cache.pathOf, op, cache.faults, old(Snapshot(cache)), Snapshot(cache), r.stored)
  {
    PlacedIsFree(cache.pathOf, cache.index, op.key, op.extension);
    var entry := cache.Remember(op.key, op.extension, op.source, op.messageId, op.labelText, op.now);
    if entry.Some? {
      StoredIsPlaced(cache.pathOf, old(cache.index), entry.value, op.extension, op.now, cache.index);
    }
    return Kept(entry.Some?);
  }

  method PerformEvict(cache: Cache, key: string) returns (r: Result)
    requires cache.Valid() && Placed(cache.pathOf, cache.index)
    modifies cache`index, cache`disk
    ensures cache.Valid() && Placed(cache.pathOf, cache.index)
    ensures r.Finished? && EvictEffect(key, cache.faults, old(Snapshot(cache)), Snapshot(cache))
  {
    var removed := cache.Evict(key);
    PartIsPlaced(cache.pathOf, old(cache.index), cache.index);
    return Finished;
  }

  method PerformEvictForMessage(cache: Cache, message: string) returns (r: Result)
    requires cache.Valid() && Placed(cache.pathOf, cache.index)
    modifies cache`index, cache`disk, cache`withdrawn
    ensures cache.Valid() && Placed(cache.pathOf, cache.index)
    ensures r.Finished? && EvictForMessageEffect(message, cache.faults, old(Snapshot(cache)), Snapshot(cache))
  {
    var removed := cache.EvictForMessage(message);
    PartIsPlaced(cache.pathOf, old(cache.index), cache.index);
    return Finished;
  }

  method PerformPruneMissing(cache: Cache) returns (r: Result)
    requires cache.Valid() && Placed(cache.pathOf, cache.index)
    modifies cache`index
    ensures cache.Valid() && Placed(cache.pathOf, cache.index)
    ensures r.Finished? && PruneMissingEffect(cache.faults, old(Snapshot(cache)), Snapshot(cache))
  {
    var dropped := cache.PruneMissing();
    PartIsPlaced(cache.pathOf, old(cache.index), cache.index);
    return Finished;
  }

  method PerformClear(cache: Cache, now: int, files: seq<StoredFile>) returns (r: Result)
    requires cache.Valid() && Placed(cache.pathOf, cache.index)
    modifies cache`index, cache`disk
    ensures cache.Valid() && Placed(cache.pathOf, cache.index)
    ensures r.Finished? && ClearEffect(now, files, cache.faults, old(Snapshot(cache)), Snapshot(cache))
  {
    ghost var gone: seq<StoredFile>;
    var result: ClearResult;
    result, gone := ClearCachedMedia(cache, now, files);
    PartIsPlaced(cache.pathOf, old(cache.index), cache.index);
    forall p | p in old(cache.disk) && p !in cache.disk
      ensures ListedClearable(files, now, p)
    {
      var f :| f in gone && f.path == p;
    }
    return Finished;
  }
}
