/** Measuring and clearing what the app stores: mobile/src/storageUsage.ts, over the list of files
    its directory walk returns. */
module StorageUsage {
  import opened Wrappers
  import opened Text
  import opened CachePruning
  import opened AttachmentCache

  datatype Category = Media | Logs | Data

  datatype StoredFile = StoredFile(path: string, name: string, size: int, modifiedAtMs: int)

  datatype Usage = Usage(totalBytes: int, mediaBytes: int, logBytes: int, dataBytes: int, mediaFileCount: int)

  datatype ClearResult = ClearResult(removedFiles: int, freedBytes: int, failedFiles: int, skippedFiles: int)

  const RECENT_GRACE_MS := 60_000

  predicate EndsWith(s: string, suffix: string) {
    |suffix| <= |s| && s[|s| - |suffix|..] == suffix
  }

  function Categorize(name: string): Category {
    var lower := Lower(name);
    if !("wetalk-" <= lower) then Media
    else if EndsWith(lower, ".log") || EndsWith(lower, ".txt") then Logs
    else Data
  }

  /** Cached attachments are media, so clearing media reaches them. */
  lemma CachedFilesAreMedia(rest: string)
    ensures Categorize("attachment-" + rest) == Media
  {
    assert Lower("attachment-" + rest)[0] == 'a';
  }

  lemma StartsInLower(name: string, prefix: string)
    requires HasNoCapitals(prefix)
    ensures prefix <= Lower(name) <==> |name| >= |prefix| && CasingOf(name[..|prefix|], prefix)
  {
    if |name| >= |prefix| {
      LowerSlice(name, 0, |prefix|);
      LowerIsCasing(name[..|prefix|], prefix);
      assert name[0..|prefix|] == name[..|prefix|] && Lower(name)[0..|prefix|] == Lower(name)[..|prefix|];
    }
  }

  lemma EndsInLower(name: string, suffix: string)
    requires HasNoCapitals(suffix)
    ensures EndsWith(Lower(name), suffix) <==> |name| >= |suffix| && CasingOf(name[|name| - |suffix|..], suffix)
  {
    if |name| >= |suffix| {
      LowerSlice(name, |name| - |suffix|, |name|);
      LowerIsCasing(name[|name| - |suffix|..], suffix);
      assert name[|name| - |suffix|..|name|] == name[|name| - |suffix|..];
      assert Lower(name)[|name| - |suffix|..|name|] == Lower(name)[|name| - |suffix|..];
    }
  }

  /** What is never cleared: exactly what is named `wetalk-` and more, in any casing; of it, what ends in `.log`
      or `.txt` counts as logs. */
  lemma AppFilesAreNotMedia(name: string)
    ensures Categorize(name) != Media <==> |name| >= 7 && CasingOf(name[..7], "wetalk-")
    ensures Categorize(name) == Logs <==>
              && |name| >= 7 && CasingOf(name[..7], "wetalk-")
              && (CasingOf(name[|name| - 4..], ".log") || CasingOf(name[|name| - 4..], ".txt"))
  {
    StartsInLower(name, "wetalk-");
    EndsInLower(name, ".log");
    EndsInLower(name, ".txt");
  }

  /** Media is cleared once it is a minute old, or of unknown age. */
  lemma ClearableAfterAMinute(f: StoredFile, now: int)
    ensures Clearable(f, now) <==>
              Categorize(f.name) == Media && (f.modifiedAtMs == 0 || f.modifiedAtMs + 60_000 <= now)
  {
  }

  /** The first listing of each path, in order: what both loops act on. */
  function Unique(files: seq<StoredFile>): (u: seq<StoredFile>)
    ensures forall f :: f in u ==> f in files
  {
    if files == [] then []
    else
      var init, last := files[..|files| - 1], files[|files| - 1];
      if exists f :: f in init && f.path == last.path then Unique(init) else Unique(init) + [last]
  }

  function PathsOf(files: seq<StoredFile>): set<string> {
    set f | f in files :: f.path
  }

  lemma PathsAppend(files: seq<StoredFile>, f: StoredFile)
    ensures PathsOf(files + [f]) == PathsOf(files) + {f.path}
  {
  }

  lemma PathListed(files: seq<StoredFile>, path: string)
    ensures path in PathsOf(files) <==> exists f :: f in files && f.path == path
  {
  }

  ghost predicate PathsOnce(files: seq<StoredFile>) {
    forall i, j :: 0 <= i < j < |files| ==> files[i].path != files[j].path
  }

  lemma {:induction false} UniqueCovers(files: seq<StoredFile>)
    ensures PathsOf(Unique(files)) == PathsOf(files) && PathsOnce(Unique(files))
  {
    if files != [] {
      var init, last := files[..|files| - 1], files[|files| - 1];
      UniqueCovers(init);
      assert files == init + [last];
      PathsAppend(init, last);
      PathListed(init, last.path);
      if last.path !in PathsOf(init) {
        PathsAppend(Unique(init), last);
        forall f | f in Unique(init)
          ensures f.path != last.path
        {
          PathListed(Unique(init), f.path);
        }
      }
    }
  }

  function SizeIn(files: seq<StoredFile>, wanted: set<Category>): int {
    if files == [] then 0
    else SizeIn(files[..|files| - 1], wanted)
         + if Categorize(files[|files| - 1].name) in wanted then files[|files| - 1].size else 0
  }

  function MediaCount(files: seq<StoredFile>): int {
    if files == [] then 0
    else MediaCount(files[..|files| - 1]) + if Categorize(files[|files| - 1].name) == Media then 1 else 0
  }

  lemma {:induction false} SizesPartition(files: seq<StoredFile>)
    ensures SizeIn(files, {Media, Logs, Data}) == SizeIn(files, {Media}) + SizeIn(files, {Logs}) + SizeIn(files, {Data})
  {
    if files != [] {
      SizesPartition(files[..|files| - 1]);
    }
  }

  /** `measureStorageUsage`: every path counted once, whatever directories list it. */
  method MeasureUsage(files: seq<StoredFile>) returns (usage: Usage)
    ensures usage.totalBytes == usage.mediaBytes + usage.logBytes + usage.dataBytes
    ensures usage.totalBytes == SizeIn(Unique(files), {Media, Logs, Data})
    ensures usage.mediaBytes == SizeIn(Unique(files), {Media}) && usage.logBytes == SizeIn(Unique(files), {Logs})
    ensures usage.mediaFileCount == MediaCount(Unique(files))
  {
    usage := Usage(0, 0, 0, 0, 0);
    var seen: set<string> := {};
    for i := 0 to |files|
      invariant seen == PathsOf(files[..i])
      invariant usage == Totals(Unique(files[..i]))
    {
      var file := files[i];
      UniqueStep(files, i);
      if file.path !in seen {
        seen := seen + {file.path};
        CountedTotals(Unique(files[..i]), file);
        usage := Counted(usage, file);
      }
    }
    assert files[..|files|] == files;
    SizesPartition(Unique(files));
  }

  ghost function Totals(u: seq<StoredFile>): Usage {
    Usage(SizeIn(u, {Media, Logs, Data}), SizeIn(u, {Media}), SizeIn(u, {Logs}), SizeIn(u, {Data}), MediaCount(u))
  }

  lemma CountedTotals(u: seq<StoredFile>, file: StoredFile)
    ensures Totals(u + [file]) == Counted(Totals(u), file)
  {
    assert (u + [file])[..|u|] == u;
  }

  /** One more file in the totals. */
  function Counted(usage: Usage, file: StoredFile): Usage {
    var sized := usage.(totalBytes := usage.totalBytes + file.size);
    match Categorize(file.name)
    case Media => sized.(mediaBytes := usage.mediaBytes + file.size, mediaFileCount := usage.mediaFileCount + 1)
    case Logs => sized.(logBytes := usage.logBytes + file.size)
    case Data => sized.(dataBytes := usage.dataBytes + file.size)
  }

  lemma UniqueStep(files: seq<StoredFile>, i: int)
    requires 0 <= i < |files|
    ensures PathsOf(files[..i + 1]) == PathsOf(files[..i]) + {files[i].path}
    ensures files[i].path in PathsOf(files[..i]) ==> Unique(files[..i + 1]) == Unique(files[..i])
    ensures files[i].path !in PathsOf(files[..i]) ==>
              && Unique(files[..i + 1]) == Unique(files[..i]) + [files[i]]
              && Unique(files[..i + 1])[..|Unique(files[..i])|] == Unique(files[..i])
  {
    assert files[..i + 1] == files[..i] + [files[i]];
    assert files[..i + 1][..i] == files[..i];
  }

  /** Media that no recording or upload may still hold. */
  predicate Clearable(f: StoredFile, now: int) {
    Categorize(f.name) == Media && !(f.modifiedAtMs != 0 && now - f.modifiedAtMs < RECENT_GRACE_MS)
  }

  function ClearableCount(files: seq<StoredFile>, now: int): nat {
    if files == [] then 0
    else ClearableCount(files[..|files| - 1], now) + if Clearable(files[|files| - 1], now) then 1 else 0
  }

  /** `clearMediaInDirectory` over everything the walk listed. `gone` lists the files removed. */
  method ClearMedia(cache: Cache, now: int, files: seq<StoredFile>)
    returns (result: ClearResult, ghost gone: seq<StoredFile>)
    modifies cache`disk
    ensures result.removedFiles + result.failedFiles + result.skippedFiles == MediaCount(Unique(files))
    ensures result.removedFiles + result.failedFiles == ClearableCount(Unique(files), now)
    ensures result.removedFiles == |gone| && result.freedBytes == SizeIn(gone, {Media, Logs, Data})
    ensures forall f :: f in gone ==> f in files && Clearable(f, now)
    ensures FilesOf(cache.disk, old(cache.disk))
    ensures forall p :: p in old(cache.disk) ==> (p in cache.disk <==> p !in PathsOf(gone))
    ensures AllClearableGone(files, now, cache.disk, cache.faults.locked)
  {
    result, gone := ClearResult(0, 0, 0, 0), [];
    var seen: set<string> := {};
    for i := 0 to |files|
      invariant seen == PathsOf(files[..i])
      invariant Tallied(files[..i], now, result, gone)
      invariant Cleared(files[..i], now, gone, old(cache.disk), cache.disk, cache.faults.locked)
    {
      var file := files[i];
      UniqueStep(files, i);
      ghost var result0, gone0, disk0 := result, gone, cache.disk;
      if file.path !in seen {
        seen := seen + {file.path};
        result, gone := ClearOne(cache, now, file, result, gone);
        TallyStep(files, i, now, result0, gone0, result, gone);
        ClearStep(files, i, now, gone0, gone, old(cache.disk), disk0, cache.disk, cache.faults.locked);
      } else {
        SeenStep(files, i, now, result, gone, old(cache.disk), cache.disk, cache.faults.locked);
      }
    }
    assert files[..|files|] == files;
  }

  /** The counters agree with the files walked. */
  ghost predicate Tallied(files: seq<StoredFile>, now: int, result: ClearResult, gone: seq<StoredFile>) {
    && result.removedFiles + result.failedFiles + result.skippedFiles == MediaCount(Unique(files))
    && result.removedFiles + result.failedFiles == ClearableCount(Unique(files), now)
    && result.removedFiles == |gone| && result.freedBytes == SizeIn(gone, {Media, Logs, Data})
  }

  /** Exactly the files `gone` went, all of them clearable. */
  ghost predicate GoneAre(files: seq<StoredFile>, now: int, gone: seq<StoredFile>, was: Disk, disk: Disk) {
    && (forall f :: f in gone ==> f in files && Clearable(f, now))
    && FilesOf(disk, was)
    && (forall p :: p in was ==> (p in disk <==> p !in PathsOf(gone)))
  }

  /** No clearable file is left but the locked ones: one that cannot be deleted does not keep the rest. */
  ghost predicate AllClearableGone(files: seq<StoredFile>, now: int, disk: Disk, locked: set<string>) {
    forall f :: f in Unique(files) && Clearable(f, now) && f.path in disk ==> f.path in locked
  }

  ghost predicate Cleared(files: seq<StoredFile>, now: int, gone: seq<StoredFile>, was: Disk, disk: Disk,
                          locked: set<string>)
  {
    GoneAre(files, now, gone, was, disk) && AllClearableGone(files, now, disk, locked)
  }

  /** What clearing one more file does to the list of files gone and to the disk. */
  ghost predicate OneCleared(file: StoredFile, now: int, gone: seq<StoredFile>, gone': seq<StoredFile>, disk: Disk,
                             disk': Disk, locked: set<string>) {
    && (if gone' == gone then disk' == disk
        else gone' == gone + [file] && Clearable(file, now) && disk' == disk - {file.path})
    && (Clearable(file, now) && file.path in disk' ==> file.path in locked)
  }

  lemma SeenStep(files: seq<StoredFile>, i: int, now: int, result: ClearResult, gone: seq<StoredFile>, was: Disk,
                 disk: Disk, locked: set<string>)
    requires 0 <= i < |files| && files[i].path in PathsOf(files[..i])
    requires Tallied(files[..i], now, result, gone) && Cleared(files[..i], now, gone, was, disk, locked)
    ensures Tallied(files[..i + 1], now, result, gone) && Cleared(files[..i + 1], now, gone, was, disk, locked)
  {
    UniqueStep(files, i);
    assert files[..i] <= files[..i + 1];
    assert forall f :: f in gone ==> f in files[..i];
  }

  lemma TallyStep(files: seq<StoredFile>, i: int, now: int, result: ClearResult, gone: seq<StoredFile>,
                  result': ClearResult, gone': seq<StoredFile>)
    requires 0 <= i < |files| && files[i].path !in PathsOf(files[..i])
    requires Tallied(files[..i], now, result, gone) && OneTallied(files[i], now, result, gone, result', gone')
    ensures Tallied(files[..i + 1], now, result', gone')
  {
    CountsStep(files, i, now);
    GoneStep(gone, files[i]);
  }

  /** One more distinct file is counted once. */
  lemma CountsStep(files: seq<StoredFile>, i: int, now: int)
    requires 0 <= i < |files| && files[i].path !in PathsOf(files[..i])
    ensures MediaCount(Unique(files[..i + 1]))
            == MediaCount(Unique(files[..i])) + if Categorize(files[i].name) == Media then 1 else 0
    ensures ClearableCount(Unique(files[..i + 1]), now)
            == ClearableCount(Unique(files[..i]), now) + if Clearable(files[i], now) then 1 else 0
  {
    UniqueStep(files, i);
  }

  lemma ClearStep(files: seq<StoredFile>, i: int, now: int, gone: seq<StoredFile>, gone': seq<StoredFile>, was: Disk,
                  disk: Disk, disk': Disk, locked: set<string>)
    requires 0 <= i < |files| && files[i].path !in PathsOf(files[..i])
    requires Cleared(files[..i], now, gone, was, disk, locked)
             && OneCleared(files[i], now, gone, gone', disk, disk', locked)
    ensures Cleared(files[..i + 1], now, gone', was, disk', locked)
  {
    if gone' == gone {
      assert files[..i] <= files[..i + 1];
    } else {
      OneMoreGone(files, i, now, gone, gone', was, disk, disk');
    }
    ClearableStep(files, i, now, disk, disk', locked);
  }

  lemma OneMoreGone(files: seq<StoredFile>, i: int, now: int, gone: seq<StoredFile>, gone': seq<StoredFile>, was: Disk,
                    disk: Disk, disk': Disk)
    requires 0 <= i < |files| && gone' == gone + [files[i]] && disk' == disk - {files[i].path}
             && Clearable(files[i], now)
    requires GoneAre(files[..i], now, gone, was, disk)
    ensures GoneAre(files[..i + 1], now, gone', was, disk')
  {
    assert files[..i + 1] == files[..i] + [files[i]];
    GonePaths(gone, files[i], was, disk);
  }

  lemma ClearableStep(files: seq<StoredFile>, i: int, now: int, disk: Disk, disk': Disk, locked: set<string>)
    requires 0 <= i < |files| && files[i].path !in PathsOf(files[..i])
    requires AllClearableGone(files[..i], now, disk, locked) && disk'.Keys <= disk.Keys
    requires Clearable(files[i], now) && files[i].path in disk' ==> files[i].path in locked
    ensures AllClearableGone(files[..i + 1], now, disk', locked)
  {
    UniqueStep(files, i);
  }

  lemma GonePaths(gone: seq<StoredFile>, file: StoredFile, was: Disk, disk: Disk)
    requires forall p :: p in was ==> (p in disk <==> p !in PathsOf(gone))
    ensures forall p :: p in was ==> (p in disk - {file.path} <==> p !in PathsOf(gone + [file]))
  {
    PathsAppend(gone, file);
  }

  /** What one more file adds to the counters. */
  ghost predicate OneTallied(file: StoredFile, now: int, result: ClearResult, gone: seq<StoredFile>,
                             result': ClearResult, gone': seq<StoredFile>) {
    && result'.removedFiles + result'.failedFiles + result'.skippedFiles
       == result.removedFiles + result.failedFiles + result.skippedFiles
         + (if Categorize(file.name) == Media then 1 else 0)
    && result'.removedFiles + result'.failedFiles
       == result.removedFiles + result.failedFiles + (if Clearable(file, now) then 1 else 0)
    && (if gone' == gone then result'.removedFiles == result.removedFiles && result'.freedBytes == result.freedBytes
        else gone' == gone + [file] && result'.removedFiles == result.removedFiles + 1
             && result'.freedBytes == result.freedBytes + file.size)
  }

  /** One file of the walk: kept, skipped, removed or failed. */
  method ClearOne(cache: Cache, now: int, file: StoredFile, result: ClearResult, ghost gone: seq<StoredFile>)
    returns (result': ClearResult, ghost gone': seq<StoredFile>)
    modifies cache`disk
    ensures OneTallied(file, now, result, gone, result', gone')
    ensures OneCleared(file, now, gone, gone', old(cache.disk), cache.disk, cache.faults.locked)
  {
    result', gone' := result, gone;
    if Categorize(file.name) != Media {
      return;
    }
    if !Clearable(file, now) {
      result' := result.(skippedFiles := result.skippedFiles + 1);
      return;
    }
    var removed := Unlink(cache, file.path);
    if removed {
      gone' := gone + [file];
      result' := result.(removedFiles := result.removedFiles + 1, freedBytes := result.freedBytes + file.size);
    } else {
      result' := result.(failedFiles := result.failedFiles + 1);
    }
  }

  /** `RNFS.unlink`: rejects for a file that is not there and for one that cannot be deleted. */
  method Unlink(cache: Cache, path: string) returns (removed: bool)
    modifies cache`disk
    ensures removed ==> path in old(cache.disk) && cache.disk == old(cache.disk) - {path}
    ensures !removed ==> cache.disk == old(cache.disk)
    ensures removed <==> path in old(cache.disk) && path !in cache.faults.locked
  {
    if path !in cache.disk {
      return false;
    }
    cache.RemoveFile(path);
    removed := path !in cache.disk;
  }

  lemma GoneStep(gone: seq<StoredFile>, file: StoredFile)
    ensures PathsOf(gone + [file]) == PathsOf(gone) + {file.path}
    ensures SizeIn(gone + [file], {Media, Logs, Data}) == SizeIn(gone, {Media, Logs, Data}) + file.size
  {
    assert (gone + [file])[..|gone|] == gone;
    assert Categorize(file.name) in {Media, Logs, Data};
  }

  /** `clearCachedMedia`: clear the media, then let the cache drop the entries left without a file. */
  method ClearCachedMedia(cache: Cache, now: int, files: seq<StoredFile>)
    returns (result: ClearResult, ghost gone: seq<StoredFile>)
    requires cache.Valid()
    modifies cache`disk, cache`index
    ensures cache.Valid()
    ensures result.removedFiles + result.failedFiles + result.skippedFiles == MediaCount(Unique(files))
    ensures result.removedFiles + result.failedFiles == ClearableCount(Unique(files), now)
    ensures result.removedFiles == |gone| && result.freedBytes == SizeIn(gone, {Media, Logs, Data})
    ensures forall f :: f in gone ==> f in files && Clearable(f, now)
    ensures forall p :: p in old(cache.disk) ==> (p in cache.disk <==> p !in PathsOf(gone))
    ensures FilesOf(cache.disk, old(cache.disk)) && PartOf(cache.index, old(cache.index))
    ensures forall k :: k in cache.index ==> cache.index[k] == old(cache.index)[k]
    ensures forall k :: k in cache.index ==> cache.index[k].path in cache.disk && cache.index[k].path !in PathsOf(gone)
    ensures AllClearableGone(files, now, cache.disk, cache.faults.locked)
    ensures forall k :: k in old(cache.index) ==>
              var path := old(cache.index)[k].path;
              k in cache.index <==> path in cache.disk && path !in cache.faults.unseen
    ensures cache.View() == ViewOf(old(cache.index), cache.disk) - (old(cache.index).Keys - cache.index.Keys)
    ensures forall k :: k in old(cache.View()) ==>
              var path := old(cache.index)[k].path;
              k in cache.View() <==> path !in PathsOf(gone) && path !in cache.faults.unseen
  {
    ghost var m, d := cache.index, cache.disk;
    result, gone := ClearMedia(cache, now, files);
    SoundNarrows(m, d, m, cache.disk, cache.remembered, cache.withdrawn);
    var dropped := cache.PruneMissing();
  }
}
