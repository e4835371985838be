/** The attachment cache: mobile/src/attachmentCache.ts, each exported operation taken whole.

    `View` is what a caller can get out of it, a plain map from key to bytes.  The ghost fields record
    what the file of each key should hold (`remembered`) and which messages were deleted (`withdrawn`). */
module AttachmentCache {
  import opened Wrappers
  import opened CachePruning

  /** Paths to bytes; also keys to bytes. */
  type Disk = map<string, seq<Byte>>

  /** The bytes behind a key: remembered whole, or left there by a copy that failed. */
  datatype Copy = Copy(bytes: seq<Byte>, whole: bool)

  type Copies = map<string, Copy>

  /** What goes wrong with the files during one operation: those that cannot be deleted, those whose presence
      cannot be checked, and whether there is no way to make room for a copy. */
  datatype Faults = Faults(locked: set<string>, unseen: set<string>, blocked: bool)

  const NO_FAULTS := Faults({}, {}, false)

  /** `s` lists the entries of `index`, each once, in some order. */
  ghost predicate Enumerates(s: seq<Entry>, index: Index) {
    && DistinctKeys(s)
    && (forall e :: e in s ==> e.key in index && index[e.key] == e)
    && (forall k :: k in index ==> index[k] in s)
  }

  /** `Object.values`, in an order the model leaves open. */
  method ObjectValues(index: Index) returns (s: seq<Entry>)
    requires Keyed(index)
    ensures Enumerates(s, index)
  {
    s := [];
    var rest := index;
    while rest != map[]
      invariant DistinctKeys(s) && rest.Keys <= index.Keys && forall k :: k in rest ==> rest[k] == index[k]
      invariant forall e :: e in s ==> e.key in index && index[e.key] == e && e.key !in rest
      invariant forall k :: k in index ==> k in rest || index[k] in s
      decreases |rest|
    {
      var k :| k in rest;
      s := s + [rest[k]];
      rest := rest - {k};
    }
  }

  /** `ranked` lists the unexpired entries of `index`, most recently used first, each once. */
  ghost predicate Ranking(ranked: seq<Entry>, index: Index, now: int) {
    && MostRecentFirst(ranked) && DistinctKeys(ranked)
    && (forall e :: e in ranked <==> e.key in index && index[e.key] == e && !Expired(e, now))
  }

  /** Exactly the first `n` entries fit in the byte limit. */
  ghost predicate LongestFit(ranked: seq<Entry>, n: int) {
    && 0 <= n <= |ranked| && SumSizes(ranked[..n]) <= MAX_BYTES
    && (forall m :: n < m <= |ranked| ==> SumSizes(ranked[..m]) > MAX_BYTES)
  }

  /** What pruning promises: the survivors are the longest most-recently-used prefix of the unexpired
      entries whose sizes fit. */
  ghost predicate PrunedTo(index: Index, now: int, survivors: Index) {
    exists ranked, n :: Ranking(ranked, index, now) && LongestFit(ranked, n) && survivors == Filed(ranked[..n])
  }

  lemma PrunedFacts(index: Index, now: int, survivors: Index)
    requires Keyed(index) && PrunedTo(index, now, survivors)
    ensures forall k :: k in survivors ==> k in index && survivors[k] == index[k] && !Expired(index[k], now)
    ensures WithinLimit(survivors)
  {
    var ranked, n :| Ranking(ranked, index, now) && LongestFit(ranked, n) && survivors == Filed(ranked[..n]);
    FiledContents(ranked[..n]);
    TotalSizeFiled(ranked[..n]);
    WithinLimitIff(survivors);
    forall k | k in survivors
      ensures k in index && survivors[k] == index[k] && !Expired(index[k], now)
    {
      assert survivors[k] in ranked;
    }
  }

  lemma {:induction false} SumsGrow(s: seq<Entry>, m: int, n: int)
    requires 0 <= m <= n <= |s| && forall e :: e in s ==> e.size >= 0
    ensures SumSizes(s[..m]) <= SumSizes(s[..n])
    decreases n
  {
    if m < n {
      SumsGrow(s, m, n - 1);
      assert s[..n][..n - 1] == s[..n - 1];
    }
  }

  /** Of the first `i` entries, which come to `total` bytes, exactly the first `n` fit. */
  ghost predicate FitSoFar(ranked: seq<Entry>, n: int, i: int, total: int, survivors: Index) {
    && 0 <= n <= i <= |ranked| && SumSizes(ranked[..n]) <= MAX_BYTES
    && (n < i ==> SumSizes(ranked[..n + 1]) > MAX_BYTES)
    && total == SumSizes(ranked[..i]) && survivors == Filed(ranked[..n])
  }

  lemma FitStep(ranked: seq<Entry>, n: int, i: int, total: int, survivors: Index)
    requires FitSoFar(ranked, n, i, total, survivors) && i < |ranked| && forall e :: e in ranked ==> e.size >= 0
    ensures if total + ranked[i].size > MAX_BYTES then FitSoFar(ranked, n, i + 1, total + ranked[i].size, survivors)
            else n == i && FitSoFar(ranked, i + 1, i + 1, total + ranked[i].size, survivors[ranked[i].key := ranked[i]])
  {
    assert ranked[..i + 1][..i] == ranked[..i];
    SumsGrow(ranked, if n < i then n + 1 else i, i + 1);
  }

  lemma FitAll(ranked: seq<Entry>, n: int, total: int, survivors: Index)
    requires FitSoFar(ranked, n, |ranked|, total, survivors) && forall e :: e in ranked ==> e.size >= 0
    ensures LongestFit(ranked, n)
  {
    forall m | n < m <= |ranked|
      ensures SumSizes(ranked[..m]) > MAX_BYTES
    {
      SumsGrow(ranked, n + 1, m);
    }
  }

  /** The files of `was` are left but for those of the entries from `n` to `i` that are not locked. */
  ghost predicate Trimmed(ranked: seq<Entry>, n: int, i: int, was: Disk, disk: Disk, locked: set<string>) {
    && FilesOf(disk, was)
    && (forall j :: 0 <= j < |ranked| && n <= j < i && ranked[j].path in disk ==> ranked[j].path in locked)
    && (forall j :: 0 <= j < |ranked| && (j < n || i <= j) && ranked[j].path in was ==> ranked[j].path in disk)
  }

  lemma TrimStep(ranked: seq<Entry>, n: int, i: int, was: Disk, disk: Disk, locked: set<string>)
    requires Trimmed(ranked, n, i, was, disk, locked) && PathsDiffer(ranked) && 0 <= n <= i < |ranked|
    ensures Trimmed(ranked, n, i + 1, was, disk - {ranked[i].path}, locked)
    ensures ranked[i].path in locked ==> Trimmed(ranked, n, i + 1, was, disk, locked)
    ensures n == i ==> Trimmed(ranked, i + 1, i + 1, was, disk, locked)
  {
    assert forall j :: 0 <= j < |ranked| && j != i ==> ranked[j].path != ranked[i].path;
  }

  /** No file is left of the entries that did not survive, but the locked ones. */
  ghost predicate Swept(entries: Index, survivors: Index, disk: Disk, locked: set<string>) {
    forall k :: k in entries && k !in survivors && entries[k].path in disk ==> entries[k].path in locked
  }

  /** Ranking the unexpired entries of an enumeration. */
  lemma SortRanks(values: seq<Entry>, kept: seq<Entry>, index: Index, now: int)
    requires Enumerates(values, index) && DistinctKeys(kept)
    requires forall e :: e in kept <==> e in values && !Expired(e, now)
    ensures Ranking(SortByRecency(kept), index, now)
  {
    var ranked := SortByRecency(kept);
    SortSorts(kept);
    forall e
      ensures e in ranked <==> e in kept
    {
      assert e in ranked <==> e in multiset(ranked);
      assert e in kept <==> e in multiset(kept);
    }
    SameKeysDistinct(kept, ranked);
  }

  lemma {:induction false} SameKeysDistinct(s: seq<Entry>, t: seq<Entry>)
    requires DistinctKeys(s) && multiset(t) == multiset(s)
    ensures DistinctKeys(t)
  {
    forall i, j | 0 <= i < j < |t|
      ensures t[i].key != t[j].key
    {
      if t[i].key == t[j].key {
        assert t[i] in multiset(t) && t[j] in multiset(t);
        assert t[i] in s && t[j] in s;
        assert t[i] == t[j];
        OnlyOnce(s, t[i]);
        TwiceIn(t, i, j);
      }
    }
  }

  lemma {:induction false} OnlyOnce(s: seq<Entry>, e: Entry)
    requires DistinctKeys(s)
    ensures multiset(s)[e] <= 1
  {
    if s != [] {
      var init, last := s[..|s| - 1], s[|s| - 1];
      OnlyOnce(init, e);
      assert s == init + [last];
      assert last !in init;
    }
  }

  lemma TwiceIn(t: seq<Entry>, i: int, j: int)
    requires 0 <= i < j < |t| && t[i] == t[j]
    ensures multiset(t)[t[i]] >= 2
  {
    assert t == t[..j] + [t[j]] + t[j + 1..];
    assert t[i] in t[..j];
  }

  ghost predicate PathsDiffer(s: seq<Entry>) {
    forall i, j :: 0 <= i < j < |s| ==> s[i].path != s[j].path
  }

  predicate SharePath(m: Index, j: string, k: string) {
    j in m && k in m && j != k && m[j].path == m[k].path
  }

  /** No two entries name one file. */
  ghost predicate PathsDistinct(m: Index) {
    forall j, k :: !SharePath(m, j, k)
  }

  /** A file an entry names holds the bytes recorded for its key, as many as the entry says if whole. */
  ghost predicate Faithful(e: Entry, disk: Disk, remembered: Copies) {
    e.path in disk ==>
      && e.key in remembered && disk[e.path] == remembered[e.key].bytes
      && (remembered[e.key].whole ==> |disk[e.path]| == e.size)
  }

  ghost predicate Sound(index: Index, disk: Disk, remembered: Copies, withdrawn: set<string>) {
    && "" !in index && Keyed(index) && SizesValid(index) && PathsDistinct(index) && WithinLimit(index)
    && (forall k :: k in index ==> Faithful(index[k], disk, remembered))
    && (forall k :: k in index && index[k].messageId.Some? ==> index[k].messageId.value !in withdrawn)
  }

  ghost function ViewOf(index: Index, disk: Disk): Disk {
    map k | k in index && index[k].path in disk :: disk[index[k].path]
  }

  /** `n` has some of the entries of `m`, the same but for when they were last used. */
  ghost predicate PartOf(n: Index, m: Index) {
    forall k :: k in n ==> k in m && n[k] == m[k].(lastUsedAtMs := n[k].lastUsedAtMs)
  }

  /** `e` has some of the files of `d`. */
  ghost predicate FilesOf(e: Disk, d: Disk) {
    forall p :: p in e ==> p in d && e[p] == d[p]
  }

  /** Dropping entries and files, and touching entries, keeps the invariant. */
  lemma SoundNarrows(m: Index, d: Disk, n: Index, e: Disk, remembered: Copies, withdrawn: set<string>)
    requires Sound(m, d, remembered, withdrawn) && PartOf(n, m) && FilesOf(e, d)
    ensures Sound(n, e, remembered, withdrawn)
  {
    PartWithinLimit(n, m);
    forall j, k
      ensures !SharePath(n, j, k)
    {
      assert !SharePath(m, j, k);
    }
    forall k | k in n
      ensures Faithful(n[k], e, remembered)
    {
      assert Faithful(m[k], d, remembered);
    }
  }

  /** When the remaining entries keep their files, the view loses exactly the keys dropped. */
  lemma ViewNarrows(m: Index, d: Disk, n: Index, e: Disk)
    requires PartOf(n, m) && FilesOf(e, d)
    requires forall k :: k in n && n[k].path in d ==> n[k].path in e
    ensures ViewOf(n, e) == ViewOf(m, d) - (m.Keys - n.Keys)
  {
  }

  /** Dropping one entry, with or without its file. */
  lemma DropNarrows(m: Index, d: Disk, key: string, e: Disk, remembered: Copies, withdrawn: set<string>)
    requires Sound(m, d, remembered, withdrawn) && key in m && (e == d || e == d - {m[key].path})
    ensures Sound(m - {key}, e, remembered, withdrawn)
    ensures ViewOf(m - {key}, e) == ViewOf(m, d) - {key}
  {
    forall k | k in m - {key}
      ensures m[k].path != m[key].path
    {
      assert !SharePath(m, k, key);
    }
    SoundNarrows(m, d, m - {key}, e, remembered, withdrawn);
    ViewNarrows(m, d, m - {key}, e);
    assert m.Keys - (m - {key}).Keys == {key};
  }

  lemma NothingToDrop(m: Index, d: Disk, key: string)
    requires key !in m
    ensures m - {key} == m && ViewOf(m, d) - {key} == ViewOf(m, d)
  {
  }

  /** No other entry names `path`. */
  ghost predicate PathFree(m: Index, key: string, path: string) {
    forall k :: k in m && m[k].path == path ==> k == key
  }

  /** `n` and `e` are what is left of `m` and `d` once `entry` is filed, its bytes are written and the
      rest is pruned. */
  ghost predicate Remembered(m: Index, d: Disk, entry: Entry, source: seq<Byte>, n: Index, e: Disk) {
    && PathFree(m, entry.key, entry.path) && entry.key != "" && entry.size == |source|
    && (forall k :: k in n ==> k in m[entry.key := entry] && n[k] == m[entry.key := entry][k])
    && WithinLimit(n) && FilesOf(e, d[entry.path := source])
    && (forall k :: k in n && n[k].path in d[entry.path := source] ==> n[k].path in e)
  }

  lemma RememberIsSound(m: Index, d: Disk, entry: Entry, source: seq<Byte>, n: Index, e: Disk,
                        remembered: Copies, withdrawn: set<string>)
    requires Sound(m, d, remembered, withdrawn) && Remembered(m, d, entry, source, n, e)
    ensures Sound(n, e, remembered[entry.key := Copy(source, true)],
                  withdrawn - if entry.messageId.Some? then {entry.messageId.value} else {})
  {
    var m1 := m[entry.key := entry];
    FiledEntryIsSound(m, entry, m1);
    forall j, k
      ensures !SharePath(n, j, k)
    {
      assert !SharePath(m1, j, k);
    }
    forall k | k in n
      ensures Faithful(n[k], e, remembered[entry.key := Copy(source, true)])
    {
      if k != entry.key {
        assert Faithful(m[k], d, remembered);
      }
    }
  }

  /** The disk once a copy to `path` has failed: the old file is gone, and `left` may be in its place. */
  function AfterFailedCopy(d: Disk, path: string, left: Option<seq<Byte>>): Disk {
    if left.Some? then d[path := left.value] else d - {path}
  }

  /** An entry under `key` names `path`: what a caller can look up before copying there. */
  predicate FiledAt(m: Index, key: string, path: string) {
    key in m && m[key].path == path
  }

  lemma FailedCopyIff(m: Index, d: Disk, key: string, path: string, left: Option<seq<Byte>>,
                      remembered: Copies, withdrawn: set<string>)
    requires Sound(m, d, remembered, withdrawn) && PathFree(m, key, path)
    ensures Sound(m, AfterFailedCopy(d, path, left), remembered, withdrawn)
            <==> !FiledAt(m, key, path) || Faithful(m[key], AfterFailedCopy(d, path, left), remembered)
  {
    var e := AfterFailedCopy(d, path, left);
    forall k | k in m && m[k].path != path
      ensures Faithful(m[k], e, remembered)
    {
      assert Faithful(m[k], d, remembered);
    }
    assert forall k :: k in m && m[k].path == path ==> k == key;
  }

  /** Every hit stays right whatever a failing copy leaves exactly when no entry under the key names the
      path: a caller who copies only after a miss, which drops the entry, is safe. */
  lemma FailedCopySafeIff(m: Index, d: Disk, key: string, path: string, remembered: Copies, withdrawn: set<string>)
    requires Sound(m, d, remembered, withdrawn) && PathFree(m, key, path)
    ensures (forall left :: Sound(m, AfterFailedCopy(d, path, left), remembered, withdrawn)) <==> !FiledAt(m, key, path)
  {
    if FiledAt(m, key, path) {
      var bytes := if key in remembered then remembered[key].bytes + [0] else [];
      FailedCopyIff(m, d, key, path, Some(bytes), remembered, withdrawn);
      assert !Sound(m, AfterFailedCopy(d, path, Some(bytes)), remembered, withdrawn);
    } else {
      forall left: Option<seq<Byte>>
        ensures Sound(m, AfterFailedCopy(d, path, left), remembered, withdrawn)
      {
        FailedCopyIff(m, d, key, path, left, remembered, withdrawn);
      }
    }
  }

  /** A failed copy over a filed entry: the next hit returns what it left. */
  lemma FailedCopyServesLeft(a: string, path: string, x: seq<Byte>, y: seq<Byte>, now: int)
    requires a != "" && |x| <= MAX_BYTES && x != y
    ensures var index := map[a := Entry(a, None, path, None, |x|, now, now)];
            && Sound(index, map[path := x], map[a := Copy(x, true)], {})
            && !Sound(index, AfterFailedCopy(map[path := x], path, Some(y)), map[a := Copy(x, true)], {})
            && ViewOf(index, AfterFailedCopy(map[path := x], path, Some(y))) == map[a := y]
  {
    var index := map[a := Entry(a, None, path, None, |x|, now, now)];
    WithinLimitIff(index);
    TotalSizeOne(index, a);
    assert Sound(index, map[path := x], map[a := Copy(x, true)], {});
    assert !Faithful(index[a], AfterFailedCopy(map[path := x], path, Some(y)), map[a := Copy(x, true)]);
  }

  lemma TotalSizeOne(m: Index, a: string)
    requires m.Keys == {a}
    ensures TotalSize(m) == m[a].size
  {
    TotalSizeWithout(m, a);
    assert m - {a} == map[];
  }

  /** What is on record for `key` after such a copy: what it left, if an entry would find it. */
  function RecordFailed(m: Index, remembered: Copies, key: string, path: string, left: Option<seq<Byte>>): Copies {
    if left.Some? && FiledAt(m, key, path) then remembered[key := Copy(left.value, false)] else remembered
  }

  /** With what was left on record, every hit is on record again. */
  lemma FailedCopyRecorded(m: Index, d: Disk, key: string, path: string, left: Option<seq<Byte>>, remembered: Copies,
                           withdrawn: set<string>)
    requires Sound(m, d, remembered, withdrawn) && PathFree(m, key, path)
    ensures Sound(m, AfterFailedCopy(d, path, left), RecordFailed(m, remembered, key, path, left), withdrawn)
  {
    forall k | k in m
      ensures Faithful(m[k], AfterFailedCopy(d, path, left), RecordFailed(m, remembered, key, path, left))
    {
      assert Faithful(m[k], d, remembered);
    }
  }

  /** Only the key's own hit can change, and only if it was filed there. */
  lemma FailedCopyView(m: Index, d: Disk, key: string, path: string, left: Option<seq<Byte>>)
    requires PathFree(m, key, path)
    ensures ViewOf(m, AfterFailedCopy(d, path, left)) - {key} == ViewOf(m, d) - {key}
    ensures !FiledAt(m, key, path) ==> ViewOf(m, AfterFailedCopy(d, path, left)) == ViewOf(m, d)
  {
    assert forall k :: k in m && k != key ==> m[k].path != path;
  }

  lemma RememberView(m: Index, d: Disk, entry: Entry, source: seq<Byte>, n: Index, e: Disk)
    requires Remembered(m, d, entry, source, n, e) && Keyed(m)
    ensures ViewOf(n, e) == ViewOf(m, d)[entry.key := source] - (m.Keys + {entry.key} - n.Keys)
  {
    var v, w := ViewOf(n, e), ViewOf(m, d)[entry.key := source] - (m.Keys + {entry.key} - n.Keys);
    forall k
      ensures k in v <==> k in w
      ensures k in v ==> v[k] == w[k]
    {
      if k in n && k != entry.key {
        assert n[k] == m[k] && n[k].path != entry.path;
      }
    }
  }

  lemma FiledEntryIsSound(m: Index, entry: Entry, m1: Index)
    requires Keyed(m) && SizesValid(m) && PathsDistinct(m) && PathFree(m, entry.key, entry.path) && entry.size >= 0
    requires m1 == m[entry.key := entry]
    ensures Keyed(m1) && SizesValid(m1) && PathsDistinct(m1)
  {
    forall j, k
      ensures !SharePath(m1, j, k)
    {
      assert !SharePath(m, j, k);
    }
  }

  /** The entries that do not belong to a message. */
  function WithoutMessage(m: Index, id: string): Index {
    map k | k in m && m[k].messageId != Some(id) :: m[k]
  }

  lemma WithoutMessageNarrows(m: Index, d: Disk, id: string, e: Disk, remembered: Copies, withdrawn: set<string>)
    requires Sound(m, d, remembered, withdrawn) && FilesOf(e, d)
    requires forall k :: k in m && m[k].messageId != Some(id) && m[k].path in d ==> m[k].path in e
    ensures Sound(WithoutMessage(m, id), e, remembered, withdrawn + {id})
    ensures ViewOf(WithoutMessage(m, id), e) == ViewOf(m, d) - (m.Keys - WithoutMessage(m, id).Keys)
  {
    var n := WithoutMessage(m, id);
    SoundNarrows(m, d, n, e, remembered, withdrawn);
    ViewNarrows(m, d, n, e);
  }

  /** `exists`: a file whose presence cannot be checked counts as gone. */
  predicate Seen(path: string, disk: Disk, faults: Faults) {
    path in disk && path !in faults.unseen
  }

  class Cache {
    const pathOf: (string, string) -> string

    var index: Index
    var disk: Disk
    /** What the surroundings do to the operation at hand. */
    var faults: Faults

    ghost var remembered: Copies
    ghost var withdrawn: set<string>

    constructor (pathOf: (string, string) -> string, disk: Disk)
      ensures Valid() && View() == map[] && index == map[]
      ensures this.pathOf == pathOf && this.disk == disk && remembered == map[] && withdrawn == {}
    {
      this.pathOf, this.disk := pathOf, disk;
      index, faults, remembered, withdrawn := map[], NO_FAULTS, map[], {};
      new;
      WithinLimitIff(index);
    }

    ghost predicate Valid()
      reads this
    {
      Sound(index, disk, remembered, withdrawn)
    }

    /** What a caller can get: the bytes behind every key that has both an entry and a file. */
    ghost function View(): Disk
      reads this
    {
      ViewOf(index, disk)
    }

    /** Every hit would return the bytes last remembered. */
    lemma ViewIsRemembered()
      requires Valid()
      ensures forall k :: k in View() ==> k in remembered && View()[k] == remembered[k].bytes
    {
      forall k | k in View()
        ensures k in remembered && View()[k] == remembered[k].bytes
      {
        assert Faithful(index[k], disk, remembered);
      }
    }

    /** `removeFile`: a file that cannot be deleted stays. */
    method RemoveFile(path: string)
      modifies `disk
      ensures disk == if path in faults.locked then old(disk) else old(disk) - {path}
    {
      if path !in faults.locked {
        disk := disk - {path};
      }
    }

    /** Files only go away, and those of the entries `kept` stay. */
    twostate predicate Spares(kept: seq<Entry>)
      reads this
    {
      && (forall p :: p in disk ==> p in old(disk) && disk[p] == old(disk)[p])
      && (forall e :: e in kept && e.path in old(disk) ==> e.path in disk)
    }

    /** `prune`, first loop: drop what has gone unused too long. */
    method DropExpired(values: seq<Entry>, ghost entries: Index, now: int) returns (kept: seq<Entry>)
      requires Enumerates(values, entries) && PathsDistinct(entries)
      modifies `disk
      ensures DistinctKeys(kept) && (forall e :: e in kept <==> e in values && !Expired(e, now))
      ensures Spares(kept)
      ensures forall e :: e in values && Expired(e, now) && e.path in disk ==> e.path in faults.locked
    {
      kept := [];
      for i := 0 to |values|
        invariant DistinctKeys(kept) && (forall e :: e in kept <==> e in values[..i] && !Expired(e, now))
        invariant forall p :: p in disk ==> p in old(disk) && disk[p] == old(disk)[p]
        invariant forall e :: e in values && !Expired(e, now) && e.path in old(disk) ==> e.path in disk
        invariant forall e :: e in values[..i] && Expired(e, now) && e.path in disk ==> e.path in faults.locked
      {
        assert values[i] in values;
        assert values[..i + 1] == values[..i] + [values[i]];
        assert forall e :: e in values && e != values[i] ==> !SharePath(entries, e.key, values[i].key);
        assert forall e :: e in values[..i] ==> e.key != values[i].key;
        if Expired(values[i], now) {
          RemoveFile(values[i].path);
        } else {
          kept := kept + [values[i]];
        }
      }
      assert values[..|values|] == values;
    }

    /** `prune`, second loop: from the first entry that overflows the limit, everything colder goes. */
    method KeepPrefix(ranked: seq<Entry>) returns (survivors: Index, ghost n: int)
      requires PathsDiffer(ranked) && forall e :: e in ranked ==> e.size >= 0
      modifies `disk
      ensures LongestFit(ranked, n) && survivors == Filed(ranked[..n])
      ensures Trimmed(ranked, n, |ranked|, old(disk), disk, faults.locked)
    {
      survivors, n := map[], 0;
      var total := 0;
      for i := 0 to |ranked|
        invariant KeptSoFar(ranked, n, i, total, survivors, old(disk), disk, faults.locked)
      {
        total, survivors, n := RankOne(ranked, i, n, total, survivors, old(disk));
      }
      FitAll(ranked, n, total, survivors);
    }

    /** The loop's body: the next entry is kept, or its file goes. */
    method RankOne(ranked: seq<Entry>, i: nat, ghost n: int, total: int, survivors: Index, ghost was: Disk)
      returns (total': int, survivors': Index, ghost n': int)
      requires KeptSoFar(ranked, n, i, total, survivors, was, disk, faults.locked) && i < |ranked|
      requires PathsDiffer(ranked) && forall e :: e in ranked ==> e.size >= 0
      modifies `disk
      ensures KeptSoFar(ranked, n', i + 1, total', survivors', was, disk, faults.locked)
    {
      var entry := ranked[i];
      total' := total + entry.size;
      if total' > MAX_BYTES {
        survivors', n' := survivors, n;
        RemoveFile(entry.path);
        RemoveStep(ranked, n, i, total, survivors, was, old(disk), faults.locked, disk);
      } else {
        survivors', n' := survivors[entry.key := entry], i + 1;
        KeepStep(ranked, n, i, total, survivors, was, disk, faults.locked);
      }
    }

    ghost predicate KeptSoFar(ranked: seq<Entry>, n: int, i: int, total: int, survivors: Index, was: Disk, rest: Disk,
                              locked: set<string>) {
      FitSoFar(ranked, n, i, total, survivors) && Trimmed(ranked, n, i, was, rest, locked)
    }

    lemma KeepStep(ranked: seq<Entry>, n: int, i: int, total: int, survivors: Index, was: Disk, rest: Disk,
                   locked: set<string>)
      requires KeptSoFar(ranked, n, i, total, survivors, was, rest, locked) && i < |ranked|
      requires PathsDiffer(ranked) && forall e :: e in ranked ==> e.size >= 0
      requires total + ranked[i].size <= MAX_BYTES
      ensures KeptSoFar(ranked, i + 1, i + 1, total + ranked[i].size, survivors[ranked[i].key := ranked[i]], was, rest,
                        locked)
    {
      FitStep(ranked, n, i, total, survivors);
      TrimStep(ranked, n, i, was, rest, locked);
    }

    lemma RemoveStep(ranked: seq<Entry>, n: int, i: int, total: int, survivors: Index, was: Disk, rest: Disk,
                     locked: set<string>, rest': Disk)
      requires KeptSoFar(ranked, n, i, total, survivors, was, rest, locked) && i < |ranked|
      requires PathsDiffer(ranked) && forall e :: e in ranked ==> e.size >= 0
      requires total + ranked[i].size > MAX_BYTES
      requires rest' == if ranked[i].path in locked then rest else rest - {ranked[i].path}
      ensures KeptSoFar(ranked, n, i + 1, total + ranked[i].size, survivors, was, rest', locked)
    {
      FitStep(ranked, n, i, total, survivors);
      TrimStep(ranked, n, i, was, rest, locked);
    }

    lemma RankedDiffer(ranked: seq<Entry>, entries: Index, now: int)
      requires Ranking(ranked, entries, now) && SizesValid(entries) && PathsDistinct(entries)
      ensures PathsDiffer(ranked) && forall e :: e in ranked ==> e.size >= 0
    {
      forall i, j | 0 <= i < j < |ranked|
        ensures ranked[i].path != ranked[j].path
      {
        assert ranked[i] in ranked && ranked[j] in ranked;
        assert !SharePath(entries, ranked[i].key, ranked[j].key);
      }
    }

    method Prune(entries: Index, now: int) returns (survivors: Index)
      requires Keyed(entries) && SizesValid(entries) && PathsDistinct(entries)
      modifies `disk
      ensures PrunedTo(entries, now, survivors)
      ensures forall p :: p in disk ==> p in old(disk) && disk[p] == old(disk)[p]
      ensures forall k :: k in survivors && survivors[k].path in old(disk) ==> survivors[k].path in disk
      ensures Swept(entries, survivors, disk, faults.locked)
    {
      var values := ObjectValues(entries);
      var kept := DropExpired(values, entries, now);
      SortRanks(values, kept, entries, now);
      var ranked := SortByRecency(kept);
      RankedDiffer(ranked, entries, now);
      ghost var n: int;
      survivors, n := KeepPrefix(ranked);
      FiledContents(ranked[..n]);
      assert forall e :: e in ranked[..n] ==> e in ranked;
      assert forall e :: e in ranked <==> e in kept by {
        assert forall e :: e in ranked ==> e in values && !Expired(e, now);
      }
    }

    // ----- the exported operations -----

    /** `findCachedAttachment`. */
    method Find(key: string, now: int) returns (r: Option<Entry>)
      requires Valid()
      modifies `index, `disk
      ensures Valid()
      ensures r.Some? ==>
                key in old(View()) && r == Some(old(index)[key].(lastUsedAtMs := now)) && !Expired(old(index)[key], now)
      ensures r.Some? ==> View() == old(View()) && index == old(index)[key := r.value]
      ensures r.None? ==> View() == old(View()) - {key} && index == old(index) - {key}
      ensures r.Some? <==>
                key in old(View()) && !Expired(old(index)[key], now) && old(index)[key].path !in faults.unseen
      ensures disk == old(disk) - (if key in old(index) && Expired(old(index)[key], now) then
                                     {old(index)[key].path} - faults.unseen - faults.locked
                                   else {})
    {
      if key == "" || key !in index {
        NothingToDrop(index, disk, key);
        return None;
      }
      var entry := index[key];
      var stale := Expired(entry, now);
      var onDisk := entry.path in disk && entry.path !in faults.unseen;
      if stale || !onDisk {
        if stale && onDisk {
          RemoveFile(entry.path);
        }
        Forget(key, old(disk));
        return None;
      }
      var used := entry.(lastUsedAtMs := now);
      SoundNarrows(index, disk, index[key := used], disk, remembered, withdrawn);
      ViewNarrows(index, disk, index[key := used], disk);
      index := index[key := used];
      return Some(used);
    }

    /** Drop one entry. `files` is the disk before its own file was removed, if it was. */
    method Forget(key: string, ghost files: Disk)
      requires Sound(index, files, remembered, withdrawn) && key in index
      requires disk == files || disk == files - {index[key].path}
      modifies `index
      ensures Valid() && index == old(index) - {key} && View() == ViewOf(old(index), files) - {key}
    {
      DropNarrows(index, files, key, disk, remembered, withdrawn);
      index := index - {key};
    }

    /** `evictCachedAttachment`. */
    method Evict(key: string) returns (removed: bool)
      requires Valid()
      modifies `index, `disk
      ensures Valid() && View() == old(View()) - {key}
      ensures removed <==> key in old(index)
      ensures index == old(index) - {key}
      ensures disk == old(disk) - (if removed then {old(index)[key].path} - faults.locked else {})
    {
      if key == "" || key !in index {
        NothingToDrop(index, disk, key);
        return false;
      }
      RemoveFile(index[key].path);
      Forget(key, old(disk));
      return true;
    }

    /** `rememberCachedAttachment` for a source file that exists. Making the directory or clearing the
        old copy may fail, which leaves everything as it was. */
    method Remember(key: string, extension: string, source: seq<Byte>, messageId: Option<string>,
                    labelText: Option<string>, now: int)
      returns (r: Option<Entry>)
      requires Valid() && PathFree(index, key, pathOf(key, extension))
      modifies `index, `disk, `remembered, `withdrawn
      ensures Valid()
      ensures r.Some? ==>
                && r.value == Entry(key, messageId, pathOf(key, extension), labelText, |source|, now, now)
                && PrunedTo(old(index)[key := r.value], now, index)
                && remembered == old(remembered)[key := Copy(source, true)]
                && withdrawn == old(withdrawn) - (if messageId.Some? then {messageId.value} else {})
                && View() == old(View())[key := source] - (old(index).Keys + {key} - index.Keys)
      ensures r.None? ==> unchanged(`index, `disk, `remembered, `withdrawn)
      ensures r.Some? ==> Swept(old(index)[key := r.value], index, disk, faults.locked)
      ensures r.Some? <==> key != "" && !faults.blocked
    {
      if key == "" || faults.blocked {
        return None;
      }
      var entry := Entry(key, messageId, pathOf(key, extension), labelText, |source|, now, now);
      File(entry, source, now);
      return Some(entry);
    }

    /** The copy is made: the entry is filed and the index pruned and saved. */
    method File(entry: Entry, source: seq<Byte>, now: int)
      requires Valid() && PathFree(index, entry.key, entry.path) && entry.key != "" && entry.size == |source|
      modifies `index, `disk, `remembered, `withdrawn
      ensures Valid() && PrunedTo(old(index)[entry.key := entry], now, index)
      ensures remembered == old(remembered)[entry.key := Copy(source, true)]
      ensures withdrawn == old(withdrawn) - (if entry.messageId.Some? then {entry.messageId.value} else {})
      ensures View() == old(View())[entry.key := source] - (old(index).Keys + {entry.key} - index.Keys)
      ensures Swept(old(index)[entry.key := entry], index, disk, faults.locked)
    {
      ghost var m, d, rem, wd := index, disk, remembered, withdrawn;
      FiledEntryIsSound(index, entry, index[entry.key := entry]);
      disk := disk[entry.path := source];
      index := Prune(index[entry.key := entry], now);
      PrunedFacts(m[entry.key := entry], now, index);
      RememberIsSound(m, d, entry, source, index, disk, rem, wd);
      RememberView(m, d, entry, source, index, disk);
      remembered := remembered[entry.key := Copy(source, true)];
      withdrawn := withdrawn - if entry.messageId.Some? then {entry.messageId.value} else {};
    }

    /** `rememberCachedAttachment` when the copy or its `stat` fails: the old file is gone, the failed copy
        may have `left` bytes in its place, and the index is as it was. Every other hit is as before, and the
        key's own as well unless it was filed under this very path. */
    method FailToRemember(key: string, extension: string, left: Option<seq<Byte>>)
      requires Valid() && PathFree(index, key, pathOf(key, extension))
      modifies `disk, `remembered
      ensures disk == AfterFailedCopy(old(disk), pathOf(key, extension), left)
      ensures remembered == RecordFailed(index, old(remembered), key, pathOf(key, extension), left)
      ensures Valid() && View() - {key} == old(View()) - {key}
      ensures !FiledAt(index, key, pathOf(key, extension)) ==> View() == old(View())
    {
      var path := pathOf(key, extension);
      FailedCopyRecorded(index, disk, key, path, left, remembered, withdrawn);
      FailedCopyView(index, disk, key, path, left);
      remembered := RecordFailed(index, remembered, key, path, left);
      disk := disk - {path};
      if left.Some? {
        disk := disk[path := left.value];
      }
      assert disk == AfterFailedCopy(old(disk), path, left);
    }

    /** `evictCachedAttachmentsForMessage`: the message's entries go whether or not their files could
        be deleted. */
    method EvictForMessage(messageId: string) returns (removed: nat)
      requires Valid()
      modifies `index, `disk, `withdrawn
      ensures Valid()
      ensures messageId == "" ==>
                index == old(index) && View() == old(View()) && withdrawn == old(withdrawn) && removed == 0
      ensures messageId != "" ==>
                && index == WithoutMessage(old(index), messageId) && removed == |old(index)| - |index|
                && withdrawn == old(withdrawn) + {messageId}
                && View() == old(View()) - (old(index).Keys - index.Keys)
      ensures Swept(old(index), index, disk, faults.locked)
    {
      removed := 0;
      if messageId == "" {
        return;
      }
      ghost var m, d := index, disk;
      var survivors: Index;
      survivors, removed := WithoutDoomed(messageId);
      WithoutMessageNarrows(m, d, messageId, disk, remembered, withdrawn);
      index := survivors;
      withdrawn := withdrawn + {messageId};
    }

    method WithoutDoomed(messageId: string) returns (survivors: Index, removed: nat)
      requires Keyed(index) && PathsDistinct(index)
      modifies `disk
      ensures survivors == WithoutMessage(index, messageId) && removed == |index| - |survivors|
      ensures FilesOf(disk, old(disk))
      ensures forall k :: k in index && index[k].messageId != Some(messageId) && index[k].path in old(disk) ==>
                index[k].path in disk
      ensures Swept(index, survivors, disk, faults.locked)
    {
      var values := ObjectValues(index);
      var doomed := OfMessage(values, messageId);
      RemoveFiles(doomed);
      removed := |doomed|;
      survivors := WithoutKeys(index, doomed);
      DoomedAre(index, values, doomed, messageId);
      OthersSpared(index, doomed, messageId);
      assert forall k :: k in index && k !in survivors ==> index[k] in doomed;
    }

    method RemoveFiles(doomed: seq<Entry>)
      modifies `disk
      ensures FilesOf(disk, old(disk))
      ensures forall p :: p in old(disk) && (forall e :: e in doomed ==> e.path != p) ==> p in disk
      ensures forall e :: e in doomed && e.path in disk ==> e.path in faults.locked
    {
      for i := 0 to |doomed|
        invariant FilesOf(disk, old(disk))
        invariant forall p :: p in old(disk) && (forall e :: e in doomed ==> e.path != p) ==> p in disk
        invariant forall j :: 0 <= j < i && doomed[j].path in disk ==> doomed[j].path in faults.locked
      {
        assert doomed[i] in doomed;
        RemoveFile(doomed[i].path);
      }
    }

    /** `pruneMissingCachedAttachments`: drop the entries whose files are gone. */
    method PruneMissing() returns (dropped: nat)
      requires Valid()
      modifies `index
      ensures Valid() && PartOf(index, old(index)) && dropped == |old(index)| - |index|
      ensures View() == old(View()) - (old(index).Keys - index.Keys)
      ensures forall k :: k in index ==> index[k] == old(index)[k]
      ensures forall k :: k in old(index) ==>
                (k in index <==> old(index)[k].path in disk && old(index)[k].path !in faults.unseen)
    {
      var survivors: Index;
      survivors, dropped := ScanDisk();
      SoundNarrows(index, disk, survivors, disk, remembered, withdrawn);
      ViewNarrows(index, disk, survivors, disk);
      index := survivors;
    }

    method ScanDisk() returns (survivors: Index, dropped: nat)
      requires Keyed(index)
      ensures dropped == |index| - |survivors|
      ensures forall k :: k in survivors ==> k in index && survivors[k] == index[k]
      ensures forall k :: k in index ==> (k in survivors <==> Seen(index[k].path, disk, faults))
    {
      var values := ObjectValues(index);
      ghost var present: seq<Entry>;
      survivors, dropped, present := KeepPresent(values);
      FiledContents(present);
      EnumerationLength(values, index);
      EnumerationLength(present, survivors);
      assert forall k :: k in index ==> index[k] in values;
    }

    method KeepPresent(values: seq<Entry>) returns (survivors: Index, dropped: nat, ghost present: seq<Entry>)
      requires DistinctKeys(values)
      ensures dropped + |present| == |values| && survivors == Filed(present) && DistinctKeys(present)
      ensures forall e :: e in present <==> e in values && Seen(e.path, disk, faults)
    {
      present, survivors, dropped := [], map[], 0;
      for i := 0 to |values|
        invariant dropped + |present| == i && survivors == Filed(present) && DistinctKeys(present)
        invariant forall e :: e in present <==> e in values[..i] && Seen(e.path, disk, faults)
      {
        var entry := values[i];
        assert values[..i + 1] == values[..i] + [entry];
        assert forall e :: e in values[..i] ==> e.key != entry.key;
        if Seen(entry.path, disk, faults) {
          survivors, present := survivors[entry.key := entry], present + [entry];
        } else {
          dropped := dropped + 1;
        }
      }
      assert values[..|values|] == values;
    }
  }

  /** The entries of one message, in order. */
  method OfMessage(values: seq<Entry>, messageId: string) returns (doomed: seq<Entry>)
    requires DistinctKeys(values)
    ensures DistinctKeys(doomed) && forall e :: e in doomed <==> e in values && e.messageId == Some(messageId)
  {
    doomed := [];
    for i := 0 to |values|
      invariant DistinctKeys(doomed) && forall e :: e in doomed <==> e in values[..i] && e.messageId == Some(messageId)
    {
      assert values[..i + 1] == values[..i] + [values[i]];
      assert forall e :: e in values[..i] ==> e.key != values[i].key;
      if values[i].messageId == Some(messageId) {
        doomed := doomed + [values[i]];
      }
    }
    assert values[..|values|] == values;
  }

  function Minus(index: Index, doomed: seq<Entry>): Index {
    if doomed == [] then index else Minus(index, doomed[..|doomed| - 1]) - {doomed[|doomed| - 1].key}
  }

  method WithoutKeys(index: Index, doomed: seq<Entry>) returns (survivors: Index)
    ensures survivors == Minus(index, doomed)
  {
    survivors := index;
    for i := 0 to |doomed|
      invariant survivors == Minus(index, doomed[..i])
    {
      assert doomed[..i + 1][..i] == doomed[..i];
      survivors := survivors - {doomed[i].key};
    }
    assert doomed[..|doomed|] == doomed;
  }

  lemma {:induction false} MinusContents(index: Index, doomed: seq<Entry>)
    requires DistinctKeys(doomed) && forall e :: e in doomed ==> e.key in index
    ensures |Minus(index, doomed)| == |index| - |doomed|
    ensures forall k :: k in Minus(index, doomed) <==> k in index && forall e :: e in doomed ==> e.key != k
    ensures forall k :: k in Minus(index, doomed) ==> Minus(index, doomed)[k] == index[k]
  {
    if doomed != [] {
      var init, last := doomed[..|doomed| - 1], doomed[|doomed| - 1];
      assert doomed == init + [last];
      MinusContents(index, init);
      assert last in doomed && last.key in Minus(index, init);
      OneFewer(Minus(index, init), last.key);
    }
  }

  /** Without the entries of a message, an index is without the message. */
  lemma DoomedAre(index: Index, values: seq<Entry>, doomed: seq<Entry>, messageId: string)
    requires Keyed(index) && Enumerates(values, index) && DistinctKeys(doomed)
    requires forall e :: e in doomed <==> e in values && e.messageId == Some(messageId)
    ensures Minus(index, doomed) == WithoutMessage(index, messageId)
    ensures |doomed| == |index| - |Minus(index, doomed)|
    ensures forall k :: k in index ==> (index[k] in doomed <==> index[k].messageId == Some(messageId))
    ensures forall e :: e in doomed ==> e.key in index && index[e.key] == e
  {
    assert forall k :: k in index ==> index[k] in values;
    MinusContents(index, doomed);
    forall k | k in index
      ensures k in Minus(index, doomed) <==> index[k].messageId != Some(messageId)
    {
      if index[k].messageId != Some(messageId) {
        assert forall e :: e in doomed ==> index[e.key] == e;
      } else {
        assert index[k] in doomed;
      }
    }
  }

  /** Files of other entries are not among those removed. */
  lemma OthersSpared(index: Index, doomed: seq<Entry>, messageId: string)
    requires PathsDistinct(index)
    requires forall e :: e in doomed ==> e.key in index && index[e.key] == e && e.messageId == Some(messageId)
    ensures forall k, e :: k in index && index[k].messageId != Some(messageId) && e in doomed ==>
              e.path != index[k].path
  {
    forall k, e | k in index && index[k].messageId != Some(messageId) && e in doomed
      ensures e.path != index[k].path
    {
      assert !SharePath(index, k, e.key);
    }
  }

  lemma OneFewer(m: Index, k: string)
    requires k in m
    ensures |m - {k}| == |m| - 1
  {
    assert m.Keys == (m - {k}).Keys + {k};
  }

  lemma {:induction false} EnumerationLength(s: seq<Entry>, index: Index)
    requires Keyed(index) && Enumerates(s, index)
    ensures |s| == |index|
    decreases |s|
  {
    if s == [] {
      assert index == map[];
    } else {
      var init, last := s[..|s| - 1], s[|s| - 1];
      assert s == init + [last] && last in s;
      var rest := index - {last.key};
      forall k | k in rest
        ensures rest[k] in init
      {
        assert index[k] in s;
      }
      forall e | e in init
        ensures e.key in rest && rest[e.key] == e
      {
        assert e in s;
      }
      EnumerationLength(init, rest);
    }
  }
}
