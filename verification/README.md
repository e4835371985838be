# A verified model of the app's client protocols, caches and parsers

The repository is a React Native calling and messaging app with a signaling server. This project models
the parts of it that hold state across steps or carry real arithmetic, and proves what they are for.
Each Dafny file models one source file or one concern of it:

| files | models |
|---|---|
| `UploadParts`, `QueuedUpload`, `QueuedFiles` | the resumable multipart upload and the files it owns |
| `Calendar`, `Digits`, `TimestampText`, `Timestamp`, `TimestampOrder`, `TimestampZones` | the timestamp canonicaliser |
| `CachePruning`, `AttachmentCache`, `CacheIndexFile`, `StorageUsage`, `CacheRuns`, `CacheCollisions` | the attachment cache, its index file, clearing media, and what colliding paths would do |
| `Schema`, `SchemaParser`, `SignalingSchemas` | the wire-contract schema combinators, and the contract's union schemas |
| `Utf8`, `DurableLog`, `ObjectGraph`, `Redaction`, `RedactionWalk` | the logger: UTF-8 trimming, the bounded logs, redaction over object graphs |
| `CallKeep` | answer routing and the incoming-call registries |
| `SignalingClient`, `Ringtone`, `NotificationPreferences`, `ThemedStyles` | queues, epochs and caches guarded against stale results |
| `CallQuality`, `Waveform` | the MOS estimate and the voice-note waveform |
| `Text`, `Wrappers` | trimming, lower-casing and `Option` |

## How to read it

An object whose methods change its fields in the source is a class here, and its module-level variables
are the fields. Ghost fields record the history that a property is about: every answer ever queued, every
request that reached the server. `Valid()` says what every reachable state satisfies. A `Run` method takes an
arbitrary script of operations and is proved to leave the state that the script determines: `Play` folds a
small pure machine over the script (for the cache, where sorting ties are open, `Passes` chains the effects).
Loops of the source are loops here, tied to a function of their input, and the properties are lemmas about
that function.

Where the source awaits, the surroundings may act. In `QueuedUpload` one method, `Await`, stands for that:
the account may switch, bytes thought lost may land, the process may die. The server, storage and the outbox
write the traces of what was asked of them, and accept a request, a PUT or a checkpoint only while the row is
current; a worker without its checks would not verify. In `Ringtone` and
`NotificationPreferences` an asynchronous function is split at its await into two methods that a run may
interleave with anything. Elsewhere an operation is taken whole.

The environment is nondeterministic. A flag `reliable` (upload, log) switches failures off, so that the same
method states both what holds however things fail and what is guaranteed when nothing does. The cache instead has
`faults`, fixed for one operation: which files cannot be deleted or looked for, and whether room can be made. Its
contracts say exactly what each operation does under any faults.

Where a specification function is also the code's own step, a lemma says on inputs and outputs, in numbers and letters
written out, what it computes: zones over their digits, expiry in milliseconds, trimming as white space taken off
both ends, secret names letter by letter.

Numbers are unbounded integers and, where the source divides, reals. Strings are sequences of UTF-16
units; `Utf8` writes the units as integers.

## Where the code does something other than its comments or its name say

Each of these is kept as the code has it, with the exact condition proved.

- **Timestamps.** Canonical-shaped text is returned as it is, real date or not
  (`2026-13-45T00:00:00.000Z`). `Timestamp.CanonicalIsFixed`.
- **Slice cleanup** (`mobile/src/queuedAttachmentUpload.ts:174`). The prefix test can also take slices
  of another upload: exactly when the other identity is this one, a dash and more, or this one is the other,
  a dash and a part number, with or without a dash and a time. `QueuedFiles.OverreachIff` proves it over the
  names drains really write, `QueuedFiles.OverreachExamples` gives a pair of each kind, and
  `QueuedFiles.EqualLengthsAreSafe` shows that UUIDs are safe.
- **Cache paths** (`mobile/src/attachmentCache.ts:100-103`). The comment says that a hash collision costs
  a download. Two keys that collide share a path (line 297), and one key's hit then returns the other's bytes:
  `CacheCollisions.CollisionServesOther`. `CacheCollisions.HitsRightIff` gives the condition. The class
  itself requires distinct paths: `PathFree`, `PathsTellKeysApart`.
- **Failed copies** (`mobile/src/attachmentCache.ts:300-302`). The old file is deleted before the copy is made
  and the index is only updated after it. A copy or `stat` that fails can leave other bytes under an entry that
  is still filed, and the next hit returns them: `AttachmentCache.FailedCopyServesLeft`. It is safe whatever is left
  exactly when no entry under the key names the path (`AttachmentCache.FailedCopySafeIff`), as after a miss
  (`CacheRuns.MissThenCopyIsSafe`).
- **Cache index.** An entry last used at time 0 comes back from a restart as last used when it was cached.
  `CacheIndexFile.RestartKeepsIndex`.
- **Unions.** Re-parsing a parsed value can strip further keys when the schema has a union:
  `Schema.UnionsCanReparseDifferently` gives the value. Parsing is idempotent for every settled schema, one
  whose earlier union options reject what conforms to later ones; `Schema.UnionFixesIff` and
  `Schema.UnionIdempotentIff` give the exact conditions at a union, and the unions of the signaling
  contract, told apart by their versions, are all settled (`SignalingSchemas.DescriptionsReparse`).
- **Redaction.** A sensitive field whose getter throws shows the getter's message, because the getter runs
  before the name is looked at. Error causes are not entered in the visited set, so the walk ends exactly when no
  error it can get to is, through causes alone, its own cause (`RedactionWalk.RedactionEndsIff`). Otherwise the
  source recurses until the stack is exhausted; the nearest field being copied catches that error, or else
  `safeSerialize`, or else the caller of `redactSensitive`.
- **Answers.** Attaching handlers without `onAnswer` drains a queued answer and drops it (`Lost` in `CallKeep`).
- **Mutes.** An invalid `Date` as expiry stores NaN, and then nobody is muted
  (`NotificationPreferences.MuteAffectsOnePeer`); after a restart the expiry is gone and the mute is for good
  (`NotificationPreferences.RestartMutes`).
- **Early writes** (`mobile/src/notificationPreferences.ts:62-64`). A write made before the file is read is said to
  be newer than the file, but it starts from the defaults and drops every stored mute:
  `NotificationPreferences.WriteBeforeReadUnmutes`. Stored mutes survive exactly when the read settles before
  anything is written: `NotificationPreferences.StoredMutesSurviveIff`.
- **Stylesheets** (`mobile/src/theme.ts:916-917`). A size change rebuilds every stylesheet once while renders use the
  current revision (`ThemedStyles.BuiltAtMostOnce`). A render with an older one empties the cache, and stylesheets
  are built again: `ThemedStyles.StaleRenderRebuilds`. `ThemedStyles.Theme.GetThemedStyles` says exactly when a
  factory is called.
- **MOS.** The cubic dips below 1 between ratings 0 and about 6.5. Only the clamp at 1 makes the score monotonic:
  `CallQuality.CubicAloneIsNotMonotonic`.
- **Waveform.** Below 48 samples the bars overlap; `Waveform.TilesIffEnough`.

## Model

| member | source | states |
|---|---|---|
| UploadParts.CountIsCeiling | mobile/src/queuedAttachmentUpload.ts:106 | the part count is the ceiling: the last numbered part starts before the end of the file and the next would not |
| UploadParts.PartInFile | mobile/src/queuedAttachmentUpload.ts:111-112 | every numbered part is non-empty and inside the file; all but the last are full, and the last ends at the end |
| UploadParts.SlicesTile | mobile/src/queuedAttachmentUpload.ts:108-137 | parts 1 to n joined in order are the prefix of the file up to the end of part n |
| UploadParts.AllSlicesAreFile | mobile/src/queuedAttachmentUpload.ts:105-139 | the complete set of slices joined in order is exactly the file |
| UploadParts.BytesReachTotal | mobile/src/queuedAttachmentUpload.ts:94 | bytes of a well-formed part list never exceed the total, and equal it exactly when every part is listed |
| UploadParts.CoveredSpan | mobile/src/queuedAttachmentUpload.ts:121 | a set of part numbers covers at most its span, and all of it only when no number is missing |
| UploadParts.BytesAreCovered | mobile/src/queuedAttachmentUpload.ts:121 | the sum over a part list in any order is the bytes its numbers cover |
| UploadParts.BytesGrow | mobile/src/queuedAttachmentUpload.ts:94 | a list of more parts covers no fewer bytes, whatever the order |
| UploadParts.AppendPart | mobile/src/queuedAttachmentUpload.ts:129-132 | adding a missing numbered part keeps the list well formed and adds its bytes |
| QueuedUpload.ListedAll | server/src/attachmentMultipart.ts:65-73 | the list a prepare answer carries has exactly the parts stored, each once, well formed |
| QueuedUpload.FractionBounds | mobile/src/queuedAttachmentUpload.ts:94 | a progress fraction lies in [0,1] and is 1 exactly when the bytes are the total |
| QueuedUpload.IdentityIff | mobile/src/queuedAttachmentUpload.ts:18-20 | an identity is 1 to 128 letters, digits, underscores and dashes, by their codes |
| QueuedUpload.Worker.Await | mobile/src/queuedAttachmentUpload.ts:86-143 | at an await `isCurrent` may flip, late parts may land and the process may die; stored parts are never lost and the invariant holds |
| QueuedUpload.Worker.PerformPrepare | server/src/attachmentMultipart.ts:132-159 | prepare reports a finished object, a single PUT for a small file, or the open session with a well-formed list of every stored part |
| QueuedUpload.Worker.Perform | server/src/attachmentMultipart.ts:132-186 | complete succeeds only on exactly parts 1..count and then stores their concatenation; refusals change nothing |
| QueuedUpload.Worker.Request | mobile/src/hooks/useSession.ts:264-289 | a request reaches the server at most twice, the second time only after a 401; a 401 stands only when no new session is to be had or the call is cut short; an answer or refusal is the server's last |
| QueuedUpload.Worker.Serve | mobile/src/queuedAttachmentUpload.ts:22-38 | a request reaches the server only while the row is current, and `complete` only with every part stored; each leaves one entry with what was stored |
| QueuedUpload.Worker.Send | mobile/src/queuedAttachmentUpload.ts:22-50 | the check comes first: at most this request reaches the server, and an answer or a refusal means it did |
| QueuedUpload.Worker.Attempt | mobile/src/queuedAttachmentUpload.ts:59-68 | one round asks for at most one grant (two requests with a 401) and PUTs at most once, with a grant; it records how it ended and whether the row was current, and tells a missing grant from a failed PUT |
| QueuedUpload.Worker.PutWithRenewal | mobile/src/queuedAttachmentUpload.ts:52-70 | one to three rounds, every one but the last refused with 403, and three unless the last was not refused or the row was no longer current; each retry asks for a fresh grant, at most two in all; the outcome is the last round's or a cancellation; success means the part (or object) is stored |
| QueuedUpload.Worker.CutSlice | mobile/src/queuedAttachmentUpload.ts:111-120 | the slice file written holds exactly the part's bytes of the file |
| QueuedUpload.Worker.SendSlice | mobile/src/queuedAttachmentUpload.ts:116-133 | on success the part list grows by exactly this stored part and was checkpointed with no less progress |
| QueuedUpload.Worker.KeepPart | mobile/src/queuedAttachmentUpload.ts:127-133 | a part is recorded under the ETag storage gave, and refused exactly when that is empty |
| QueuedUpload.Worker.UploadPart | mobile/src/queuedAttachmentUpload.ts:116-136 | the same; the slice file is to be deleted whatever became of the part, and is gone if that works; at most three PUTs, all of this part |
| QueuedUpload.Worker.KnownProgress | mobile/src/queuedAttachmentUpload.ts:129-133 | progress of a part list backed by the store is in [0,1], and 1 only when every byte is stored |
| QueuedUpload.Worker.SendMissing | mobile/src/queuedAttachmentUpload.ts:108-138 | no part already listed is PUT again, parts are tried again only by the renewal rule, checkpointed progress never falls, and success means every part is stored |
| QueuedUpload.RenewalAppend | mobile/src/queuedAttachmentUpload.ts:58-69 | a part tried once more after smaller ones keeps the rule: again only after a 403, at most three times in a drain, and always while current until the third |
| QueuedUpload.Worker.Resume | mobile/src/queuedAttachmentUpload.ts:88-97 | the first checkpoint comes from the store's own list, with its progress in range and no lower than any checkpointed before |
| QueuedUpload.Worker.ResumesAbove | mobile/src/queuedAttachmentUpload.ts:88-95 | what a prepare answer lists covers every part an earlier checkpoint listed, so its progress is no lower |
| QueuedUpload.Worker.Transfer | mobile/src/queuedAttachmentUpload.ts:99-141 | success means the object exists; multipart drains PUT only unlisted parts, small files only the whole object |
| QueuedUpload.Worker.Finish | mobile/src/queuedAttachmentUpload.ts:142-144 | the completed checkpoint is written only once the object exists, and only while current |
| QueuedUpload.Worker.Drain | mobile/src/queuedAttachmentUpload.ts:73-145 | a drain that returns has delivered exactly the file and checkpointed it; its checkpoints never fall, nothing stored at its start is PUT again, its attempts keep the renewal rule; a bad identity is refused exactly when it is one; left in peace it succeeds |
| QueuedUpload.Worker.RunDrains | mobile/src/queuedAttachmentUpload.ts:73-145 | over any number of drains ended anyhow: every request, PUT and checkpoint started while current, every `complete` had parts concatenating to the file, progress 1 was saved only with all bytes stored, saved progress never fell, nothing acknowledged was PUT again, retries kept the renewal rule, and a last undisturbed drain delivers the file |
| QueuedFiles.ReleaseRecognisesRetained | mobile/src/queuedAttachmentUpload.ts:147-160 | cleanup reads identity `i` off a URI exactly when retention hands out that URI for a valid `i` |
| QueuedFiles.OwnedIff | mobile/src/queuedAttachmentUpload.ts:174 | a slice is taken exactly when its own identity and suffix read on from the identity being released |
| QueuedFiles.EqualLengthsAreSafe | mobile/src/queuedAttachmentUpload.ts:173-177 | among identities of one length cleanup takes its own slices and no others |
| QueuedFiles.CutsIff | mobile/src/queuedAttachmentUpload.ts:107-115 | what stands before a dash in the rest of a slice name is its part number, or its part number and time |
| QueuedFiles.OverreachIff | mobile/src/queuedAttachmentUpload.ts:174 | cleanup of one identity takes a slice some drain of another can write exactly when the other is this one, a dash and more, or this one is the other, a dash and a part number, with or without a dash and a time |
| QueuedFiles.OverreachExamples | mobile/src/queuedAttachmentUpload.ts:174 | releasing `a-1` takes a slice of `a`; releasing `a-b` takes none |
| QueuedFiles.Release | mobile/src/queuedAttachmentUpload.ts:157-179 | a foreign URI changes nothing; otherwise the retained copy and exactly the matching plain files go, the rest stay in order |
| QueuedFiles.RunThenRelease | mobile/src/queuedAttachmentUpload.ts:108-179 | after any drains ended anyhow, releasing the upload leaves none of the slice files they left behind, and keeps what the prefix test does not match |
| Calendar.YearsAgree | shared/time.ts:112 | the closed-form day number of a year's start counts every day of every year since 1970, before and after |
| Calendar.MakeDayCounts | shared/time.ts:112 | the day set by year, month and day of a real date is its day number |
| Calendar.DateFromDay | shared/time.ts:126-128 | reading a day back gives a real date with that day number |
| Calendar.DayNumberIncreases | shared/time.ts:55-61 | earlier dates have smaller day numbers |
| Calendar.DayNumberInverts | shared/time.ts:120-128 | a real date read back from its day number is itself, so no two dates share one |
| Calendar.MonthLengths | shared/time.ts:112 | the twelve month lengths |
| Calendar.FieldsRollOver | shared/time.ts:112 | twelve months more is the next year, a day more the next day |
| Calendar.NextMonth | shared/time.ts:112 | the next month starts after the days of this one |
| TimestampText.MatchSound | shared/time.ts:46-47 | groups the matcher returns are grammatical and spell exactly the text |
| TimestampText.MatchComplete | shared/time.ts:46-47 | every spelling of grammatical groups is matched, with those groups |
| TimestampText.MatchIffSpelling | shared/time.ts:46-47 | the matcher returns given groups exactly when they are grammatical and spell the text: the pattern is unambiguous |
| Timestamp.ClockInverts | shared/time.ts:129-131 | the time of day read back from a day plus a real clock is that clock, and so is the day |
| Timestamp.RollFieldsIn | shared/time.ts:111-118 | the setters produce the rolled instant, whose day is the date's own for a real date |
| Timestamp.ReadBackIffReal | shared/time.ts:120-134 | the fields read back equal the fields put in exactly when they form a real Gregorian date and time of day |
| Timestamp.ReadBackAndShift | shared/time.ts:111-142 | the conversion succeeds exactly on real fields whose shifted instant falls in years 0000-9999, and renders that instant |
| Timestamp.Convert | shared/time.ts:107-142 | the same from matched groups, whose offset is bounded by the pattern |
| Timestamp.NormalizeTimestamp | shared/time.ts:98-143 | the method as written equals the specification on every input: the fixed-width UTC text of the denoted instant, or the input itself |
| Timestamp.IsoTextIsCanonical | shared/time.ts:138-142 | `toISOString` is canonical exactly in years 0000-9999 |
| Timestamp.IsoTextSpells | shared/time.ts:141-142 | the output is itself matched by the accepted grammar, as its own fields |
| Timestamp.IsoTextDenotes | shared/time.ts:141-142 | the output denotes the very instant it renders |
| Timestamp.CanonicalIsFixed | shared/time.ts:87-102 | canonical-shaped text is its own normal form, agreeing with what the slow path would give when its fields are real |
| TimestampOrder.FractionTruncates | shared/time.ts:52-65 | the milliseconds are the floor of a thousand times the fraction, for any number of digits |
| TimestampOrder.InstantIsFloor | shared/time.ts:55-61 | the instant of an accepted text is the exact instant cut to the millisecond |
| TimestampOrder.IsoTextOrder | shared/time.ts:145-152 | text order and equality of two outputs are time order and equality |
| TimestampOrder.NormalizeIsIdempotent | shared/time.ts:84-94 | normalising twice is normalising once, on every text |
| TimestampOrder.NormalizedDenotesInstant | shared/time.ts:84-143 | the output is canonical and denotes the input's exact instant cut to the millisecond |
| TimestampOrder.OtherTextIsKept | shared/time.ts:87-90 | text outside the grammar, unreal fields and instants outside four-digit years come back unchanged |
| TimestampOrder.SpellingsAgree | shared/time.ts:84-94 | accepted texts have one normal form exactly when they denote one instant |
| TimestampOrder.NormalizeIsMonotonic | shared/time.ts:55-61 | an earlier or equal exact instant never gets a later output, whatever the offsets and digits |
| TimestampOrder.TimestampMsIsInstant | shared/time.ts:153-156 | `timestampMs` of an accepted text is its instant |
| TimestampOrder.TextOrderIsTimeOrder | shared/time.ts:145-156 | output text sorts exactly as `timestampMs` does |
| TimestampZones.ZoneIff | shared/time.ts:46-47 | a zone is nothing, a `Z`, or a sign and hours to 23, alone or with minutes to 59, over the digits |
| TimestampZones.ZoneShifts | shared/time.ts:75-82 | under `+hh:mm` the exact instant is that many minutes before the one under `Z`, under `-hh:mm` as many after, with or without the colon |
| TimestampZones.HoursAlone | shared/time.ts:75-82 | `±hh` is `±hh:00` |
| TimestampZones.AbsentFields | shared/time.ts:62-82 | no zone is UTC, no seconds are `00`, no fraction is `0` |
| TimestampZones.NormalizeExample | shared/time.ts:98-143 | `2026-09-09 19:46:47.89+05:30` becomes `2026-09-09T14:16:47.890Z` |
| CachePruning.TotalSizeFiled | mobile/src/attachmentCache.ts:217-226 | the total size of an index does not depend on the order it is listed in |
| CachePruning.WithinLimitIff | mobile/src/attachmentCache.ts:221 | an index is within the limit exactly when its total size is at most 64 MiB |
| CachePruning.PartWithinLimit | mobile/src/attachmentCache.ts:205-228 | part of an index within 64 MiB is within it |
| CachePruning.SortSorts | mobile/src/attachmentCache.ts:215-216 | the sort is most recent first and a permutation |
| AttachmentCache.PrunedFacts | mobile/src/attachmentCache.ts:199-228 | survivors of pruning are unexpired entries, unchanged, with at most 64 MiB together |
| AttachmentCache.Cache.DropExpired | mobile/src/attachmentCache.ts:206-213 | keeps exactly the unexpired entries and spares their files; the expired ones' go, but for those that cannot be deleted |
| AttachmentCache.Cache.KeepPrefix | mobile/src/attachmentCache.ts:217-227 | the survivors are the longest prefix that fits, and their files stay; the others' go, but for those that cannot be deleted |
| AttachmentCache.Cache.Prune | mobile/src/attachmentCache.ts:205-228 | the survivors are exactly the longest most-recently-used prefix of the unexpired entries that fits 64 MiB; their files stay, and the others' go, but for those that cannot be deleted |
| AttachmentCache.SoundNarrows | mobile/src/attachmentCache.ts:239-390 | dropping entries or files, or touching entries, keeps the cache sound |
| AttachmentCache.ViewNarrows | mobile/src/attachmentCache.ts:262-268 | when the remaining entries keep their files, the visible map loses exactly the dropped keys |
| AttachmentCache.RememberIsSound | mobile/src/attachmentCache.ts:297-313 | filing new bytes under a free path and pruning keeps every hit equal to what was last remembered |
| AttachmentCache.RememberView | mobile/src/attachmentCache.ts:297-313 | the visible map becomes the old one with the key set to the new bytes, less what was pruned |
| AttachmentCache.FailedCopySafeIff | mobile/src/attachmentCache.ts:298-302 | whatever a failing copy leaves, every hit stays right exactly when no entry under the key names the path copied to |
| AttachmentCache.FailedCopyServesLeft | mobile/src/attachmentCache.ts:300-302 | an entry and a failed copy over its file: the next hit returns what the copy left |
| AttachmentCache.Cache.ViewIsRemembered | mobile/src/attachmentCache.ts:230-238 | every visible key returns the bytes last remembered for it |
| AttachmentCache.Cache.Find | mobile/src/attachmentCache.ts:239-274 | a hit is exactly a visible unexpired entry whose file can be looked for, and only touches its last use; a miss drops exactly that key, and an expired entry's file if it can be deleted |
| AttachmentCache.Cache.Remember | mobile/src/attachmentCache.ts:285-320 | when the copy and its `stat` succeed: the new entry is filed, the index is pruned as specified, the visible map gains the key; without a key or room nothing changes |
| AttachmentCache.Cache.FailToRemember | mobile/src/attachmentCache.ts:298-319 | when the copy or its `stat` fails: the old file is gone and the index as it was; every other key's hit is unchanged, and the key's own too unless it was filed under this path, where a hit returns what was left |
| AttachmentCache.Cache.Evict | mobile/src/attachmentCache.ts:354-365 | exactly one key goes, and its file if it can be deleted |
| AttachmentCache.Cache.EvictForMessage | mobile/src/attachmentCache.ts:322-352 | exactly the message's entries go, counted, and every file of theirs that can be deleted |
| AttachmentCache.Cache.PruneMissing | mobile/src/attachmentCache.ts:367-390 | exactly the entries without a file that can be found go, counted; the others are unchanged |
| CacheIndexFile.Sanitize | mobile/src/attachmentCache.ts:126-144 | the loop builds the specified index from whatever the file holds |
| CacheIndexFile.MissingNumbers | mobile/src/attachmentCache.ts:133-141 | numbers the file lacks are 0, and an entry without a last use was last used when it was cached |
| CacheIndexFile.SanitizedIsKeyed | mobile/src/attachmentCache.ts:122-144 | any file content gives an index filed by key without empty keys or paths |
| CacheIndexFile.SavedReadsBack | mobile/src/attachmentCache.ts:126-178 | a written list of entries reads back as its index with entries lacking a path dropped and a last use at time 0 set to the time of caching |
| CacheIndexFile.RestartKeepsIndex | mobile/src/attachmentCache.ts:146-178 | saving and reloading keeps the index exactly when no entry has an empty key or path or was last used at time 0 after being cached at another |
| CacheIndexFile.Restart | mobile/src/attachmentCache.ts:146-178 | a restart after a successful save reloads the index and keeps every hit right |
| StorageUsage.CachedFilesAreMedia | mobile/src/storageUsage.ts:87-95 | every cached attachment's file counts as media |
| StorageUsage.AppFilesAreNotMedia | mobile/src/storageUsage.ts:87-95 | a file is not media exactly when it is named `wetalk-` and more in any casing; of those, `.log` and `.txt` are logs |
| StorageUsage.ClearableAfterAMinute | mobile/src/storageUsage.ts:236-240 | media is cleared once it is 60000 ms old, or of unknown age |
| StorageUsage.UniqueCovers | mobile/src/storageUsage.ts:195-207 | counting the first listing of each path covers every path once |
| StorageUsage.MeasureUsage | mobile/src/storageUsage.ts:188-223 | media, log and data bytes partition the total over distinct paths, and media files are counted |
| StorageUsage.ClearMedia | mobile/src/storageUsage.ts:225-250 | media past the grace period is removed or failed, younger media skipped, each path once; what is left of it cannot be deleted, so one such file does not keep the rest; nothing else is removed; freed bytes are the removed files' sizes |
| StorageUsage.ClearCachedMedia | mobile/src/storageUsage.ts:252-281 | afterwards no entry names a removed file, so a cleared file is a miss; other hits stay exactly when their file can be looked for |
| CacheRuns.Run | mobile/src/attachmentCache.ts:239-390 | from an empty index through any operations, failed copies and restarts, under any file faults and with saves that succeed: the run passes through sound states with each operation's full effect in turn, never above 64 MiB |
| CacheRuns.HistoryOfScript | mobile/src/attachmentCache.ts:276-352 | what is on record for each key, and which messages are withdrawn, are the script's own successful remembers, failed copies and evictions |
| CacheRuns.HitIsLastKept | mobile/src/attachmentCache.ts:230-274 | a hit at any step returns the bytes the script last kept for its key, or those the last copy left that failed since while the key was filed there |
| CacheRuns.HitIsOnRecord | mobile/src/attachmentCache.ts:230-274 | a hit returns what is on record for its key, and never an entry of a message evicted since it was last remembered for |
| CacheRuns.RecordOf | mobile/src/attachmentCache.ts:297-319 | what is on record is what the last step to keep or spoil the key gave |
| CacheRuns.MissThenCopyIsSafe | mobile/src/attachmentCache.ts:262-302 | a copy that fails right after a miss spoils nothing |
| CacheRuns.HitIffFresh | mobile/src/attachmentCache.ts:239-274 | over any run, a visible key is a hit exactly until 1209600000 ms after it was last kept or handed out |
| CacheRuns.LastUse | mobile/src/attachmentCache.ts:146-274 | that time is the time of the last step to keep or hand out the key, through any restarts |
| CacheRuns.UsesOfScript | mobile/src/attachmentCache.ts:239-320 | the times kept in the index are those of the script's own steps |
| CacheRuns.PlacedIsFree | mobile/src/attachmentCache.ts:97-114 | when keys determine paths apart, the path of a key is named by no other entry |
| CacheCollisions.HitsRightIff | mobile/src/attachmentCache.ts:97-114 | after filing under any path, every hit returns what was last remembered exactly when no other entry left names the file with other bytes to its name |
| CacheCollisions.CollisionServesOther | mobile/src/attachmentCache.ts:100-103 | two keys with one path: the hit for the first returns the second's bytes |
| Schema.ParseIsSound | shared/schema.ts:47-233 | every successful parse conforms to the schema at every depth, and undefined comes out exactly when it went in |
| Schema.TrimmedStringParses | shared/schema.ts:86-94 | a trimming string schema measures and returns the text between any white space |
| Schema.ConformingIsAccepted | shared/schema.ts:47-233 | every conforming value parses |
| Schema.ConformingIsFixed | shared/schema.ts:47-233 | a value conforming to a settled schema parses to itself |
| Schema.FixedIffConforming | shared/schema.ts:47-233 | for a settled schema a value parses to itself exactly when it conforms |
| Schema.ParseIsIdempotent | shared/schema.ts:47-233 | for a settled schema re-parsing a result returns it unchanged |
| Schema.UnionFreeIsSettled | shared/schema.ts:86-222 | schemas without unions are settled |
| Schema.ReparseConforms | shared/schema.ts:225-233 | with unions a result still parses and still conforms |
| Schema.FirstAccepts | shared/schema.ts:227-231 | a union accepts exactly when some option does, and then through a first such option |
| Schema.FirstIsTaken | shared/schema.ts:227-231 | a union returns what the first option to accept the value makes of it |
| Schema.UnionsCanReparseDifferently | shared/schema.ts:170-233 | a union of two object schemas and a value whose result re-parses to something smaller |
| Schema.UnionReparse | shared/schema.ts:225-233 | a union keeps a value exactly when the first option to accept it, if settled, is one it conforms to |
| Schema.UnionFixesIff | shared/schema.ts:225-233 | a union of options that fix their values fixes its own exactly when no option takes over a value conforming to another |
| Schema.UnionIdempotentIff | shared/schema.ts:225-233 | re-parsing a union's results changes none exactly when the first option to accept a result is one it conforms to |
| Schema.ToldApartRejects | shared/schema.ts:120-124 | options told apart by literals reject each other's values |
| Schema.DiscriminatedIsSettled | shared/schema.ts:225-233 | a schema whose unions, at any depth, are told apart by literals is settled |
| SignalingSchemas.DescriptionsReparse | shared/signaling/schemas.ts:21-26 | the contract's unions (the version field, offers and answers from clients and from the server) are discriminated, so their results re-parse unchanged |
| SignalingSchemas.ClientDiscriminates | shared/signaling/schemas.ts:247-254 | a client's offer and answer schemas are well formed and told apart by their versions |
| SignalingSchemas.ServerDiscriminates | shared/signaling/schemas.ts:409-416 | so are the server's, where a legacy description may omit its version |
| SignalingSchemas.VersionsTaken | shared/signaling/schemas.ts:21-24 | a version is 2 or 3 |
| SignalingSchemas.IdsTaken | shared/schema.ts:96-99 | an id is 1 to 128 characters between any white space, which goes |
| SignalingSchemas.NegotiationIdsTaken | shared/signaling/schemas.ts:249 | a negotiation id may be missing, and else is 1 to 1024 characters, kept as they are |
| SignalingSchemas.OtherKeysGo | shared/signaling/schemas.ts:247-254 | a parsed description holds nothing but what the contract names |
| SchemaParser.ParseValue | shared/schema.ts:47-233 | the parser with the source's loops returns the specified outcome for every schema and value |
| SchemaParser.ParseLeaf | shared/schema.ts:82-134 | likewise for the schemas without parts |
| SchemaParser.ParseArray | shared/schema.ts:137-148 | likewise for arrays |
| SchemaParser.ParseObject | shared/schema.ts:170-195 | likewise for objects: stripping, passthrough and exclusive pairs |
| SchemaParser.ParseRecord | shared/schema.ts:211-222 | likewise for records, in any key order |
| SchemaParser.ParseUnion | shared/schema.ts:225-233 | likewise for unions |
| Text.TrimLower | mobile/src/notificationPreferences.ts:48-50 | trimming and lower-casing commute |
| Text.TrimCuts | shared/schema.ts:89 | whatever white space is around a trimmed text, trimming gives that text |
| Text.TrimSplits | shared/schema.ts:89 | trimming takes white space off both ends and nothing else |
| Text.SpaceCodes | shared/schema.ts:89 | the white space of ECMAScript, by code |
| Text.LowerIsCasing | mobile/src/notificationPreferences.ts:48-50 | lower-casing gives a text without capitals for exactly its casings |
| NotificationPreferences.CasingIsIgnored | mobile/src/notificationPreferences.ts:47-50 | the normal form of a peer id ignores casing and surrounding space, and is its own normal form |
| NotificationPreferences.IdIsKnown | mobile/src/notificationPreferences.ts:48-50 | an id has the normal form of a name exactly when its text between any white space is a casing of it |
| Utf8.EncodedPointDecodes | mobile/src/appLogger.ts:146-167 | the encoding of a code point decodes to it, and of a lone surrogate to U+FFFD |
| Utf8.EncodedDecodes | mobile/src/appLogger.ts:146-167 | the bytes of a string decode to its code points, with U+FFFD for each lone surrogate |
| Utf8.RoundTripsIff | mobile/src/appLogger.ts:146-167 | a whole string comes back from its bytes exactly when it has no lone surrogate |
| Utf8.SurrogateBytes | mobile/src/appLogger.ts:146-167 | surrogates are the high and the low ones, and exactly they and U+FFFD itself are written as U+FFFD |
| Utf8.Utf8ByteLength | mobile/src/appLogger.ts:146-167 | the count is the length of the UTF-8 encoding, lone surrogates as three bytes |
| Utf8.TrimToUtf8Bytes | mobile/src/appLogger.ts:169-185 | the result is the longest prefix of whole code points that fits, the whole string exactly when it fits |
| Utf8.EncodeTake | mobile/src/appLogger.ts:174-183 | cutting between code points keeps exactly the bytes of the code points before the cut |
| Utf8.BytesGrow | mobile/src/appLogger.ts:174-183 | more code points never take fewer bytes |
| DurableLog.Log.PersistLogLine | mobile/src/appLogger.ts:254-297 | the line is appended, or starts the file over exactly when it would not fit; with a known size the file is at most 262144 bytes, even after a write that failed part-way |
| DurableLog.Log.PersistAll | mobile/src/appLogger.ts:254-297 | over any lines and write failures the log stays within its limit |
| DurableLog.MemoryLog.AddLog | mobile/src/appLogger.ts:212-216 | the lines in memory are always the last 500 logged |
| ObjectGraph.ChainEndsIffClean | mobile/src/appLogger.ts:66-68 | following causes from an error ends, within as many links as there are objects, exactly when it meets no cycle |
| ObjectGraph.CauseRankDecreases | mobile/src/appLogger.ts:66-68 | on such a chain a cause is always nearer the end |
| Redaction.ExpandedOnce | mobile/src/appLogger.ts:99-118 | a copy expands exactly the objects newly seen, once each |
| Redaction.SensitiveFieldsAreRedacted | mobile/src/appLogger.ts:78-119 | the copy follows the graph at every depth, and a value becomes the marker exactly when its name is one of the sixteen in some casing |
| Redaction.EveryFieldShown | mobile/src/appLogger.ts:108-116 | every field of a copied object is there under its name; it is the marker exactly when its name is sensitive and it could be read |
| Redaction.SensitiveIffNamed | mobile/src/appLogger.ts:13-34 | a name is sensitive exactly when it is one of the sixteen, written out, in any casing |
| Redaction.SecretsLeaveNoTrace | mobile/src/appLogger.ts:79-81 | two graphs that differ only in the values of sensitive fields have the same copy and visited set, and the walk ends on both or neither |
| Redaction.MoreFuel | mobile/src/appLogger.ts:78-119 | the copy does not depend on how deep a walk may go once it may go deep enough |
| RedactionWalk.RedactionEndsIff | mobile/src/appLogger.ts:52-119 | redaction of a value ends exactly when no error it can get to is, through causes alone, its own cause |
| RedactionWalk.WalkEnds | mobile/src/appLogger.ts:99-118 | without such a cycle the walk ends, unseen objects being the main measure |
| RedactionWalk.EndedIsAcyclic | mobile/src/appLogger.ts:66-68 | a walk that ends has met no such cycle |
| RedactionWalk.SelfCauseNeverEnds | mobile/src/appLogger.ts:66-68 | no depth is enough for an error that is its own cause |
| RedactionWalk.Redactor.ToSafeValue | mobile/src/appLogger.ts:78-119 | the recursive walk terminates and equals the specification, visited set included |
| RedactionWalk.Redactor.ToSafeError | mobile/src/appLogger.ts:52-71 | likewise for errors and their causes |
| RedactionWalk.Redactor.RedactSensitive | mobile/src/appLogger.ts:121-127 | a fresh walk of any value it can finish equals the specification, expands each visited object once and shows every field as promised |
| CallKeep.FatesPartition | mobile/src/callKeep.ts:136-147 | every queued answer has exactly one fate and at most one is pending |
| CallKeep.Calls.RecordPendingAnswer | mobile/src/callKeep.ts:203-226 | the slot holds the new id; a different queued answer is superseded |
| CallKeep.Calls.ConsumePendingAnswer | mobile/src/callKeep.ts:235-248 | drains the slot, or only a matching one; otherwise nothing changes |
| CallKeep.Calls.ClearPendingAnswer | mobile/src/callKeep.ts:250-263 | drops the slot, or only a matching one; otherwise nothing changes |
| CallKeep.Calls.SetCallActionHandlers | mobile/src/callKeep.ts:640-652 | the new handlers take over and the queued answer is replayed to them once, or lost when they take none |
| CallKeep.Calls.Detach | mobile/src/callKeep.ts:654-658 | removes these handlers and never ones attached later |
| CallKeep.Calls.OnAnswerCall | mobile/src/callKeep.ts:502-517 | goes to the attached `onAnswer`, or else is queued |
| CallKeep.Calls.OnEndCall | mobile/src/callKeep.ts:518-533 | drops a queued answer to that call; without an `onEnd` the call is forgotten |
| CallKeep.Calls.ClearDisplayedCall | mobile/src/callKeep.ts:196-201 | forgets the call in all four registries |
| CallKeep.Calls.EndAllCalls | mobile/src/callKeep.ts:457-463 | empties all four registries |
| CallKeep.Calls.DismissStaleCalls | mobile/src/callKeep.ts:312-331 | ends exactly the displayed calls of that caller, and drops a queued answer exactly when it is to one of them |
| CallKeep.Calls.DisplayIncomingCall | mobile/src/callKeep.ts:340-388 | shown exactly for a new id with the native side working; replaces the caller's earlier calls; a failed display leaves no entry |
| CallKeep.Run | mobile/src/callKeep.ts:103-147 | over any run the slot, handlers, fates, replays and displays are what the script determines; the fates of queued answers add up, none is lost while handlers have `onAnswer`, and no two displayed calls share a caller |
| CallKeep.LaterHandlersStay | mobile/src/callKeep.ts:654-658 | detaching other handlers, and anything but attaching new ones, leaves the ones attached last |
| CallKeep.DisplayReplacesOwn | mobile/src/callKeep.ts:312-388 | a display that goes well ends the caller's other calls and no one else's, leaves what is kept about the rest, and enters the call with its name between any white space |
| SignalingClient.QueueIsOpenItems | mobile/src/signalingClient.ts:68 | a queue kept by the books is the order-preserving filter of everything queued |
| SignalingClient.KeepUnlessContents | mobile/src/signalingClient.ts:192-201 | the filter keeps exactly the unpicked emits, in order |
| SignalingClient.Client.Emit | mobile/src/signalingClient.ts:112-146 | malformed emits go nowhere, connected ones and those with an acknowledgement are sent, others join the queue and overflow drops the oldest |
| SignalingClient.Client.FlushQueue | mobile/src/signalingClient.ts:163-178 | everything queued is sent once, oldest first, and leaves the queue; nothing happens offline |
| SignalingClient.Client.DropQueuedEvents | mobile/src/signalingClient.ts:192-201 | splicing from the back is the order-preserving filter |
| SignalingClient.Client.Unsubscribe | mobile/src/signalingClient.ts:91-98 | removes just its handler, and nothing the second time |
| SignalingClient.Client.Dispose | mobile/src/signalingClient.ts:203-213 | every listener of this client goes and every other on the socket stays |
| SignalingClient.QueuedAreOfflineEmits | mobile/src/signalingClient.ts:112-138 | what is queued over a script is its valid, offline emits without an acknowledgement, in order |
| SignalingClient.SentAreDirectEmits | mobile/src/signalingClient.ts:122-145 | what is sent over a script, apart from flushes, is its direct emits, in order |
| SignalingClient.Run | mobile/src/signalingClient.ts:112-201 | over any run the queue and everything sent are what the script determines; the queue has at most 32 events and is, in order, the offline emits not flushed, overflowed or invalidated; each queued emit is sent at most once, in order |
| Ringtone.AlternatingBalance | mobile/src/ringtone.ts:76-77 | alternating native calls balance or have one start over |
| Ringtone.Ringer.Resume | mobile/src/ringtone.ts:103-131 | a start rings exactly when the device is audible, nothing rings, no stop came since it began and the module works |
| Ringtone.Ringer.Stop | mobile/src/ringtone.ts:133-153 | the flag is cleared and every waiting start outdated; the module is told exactly when it was ringing |
| Ringtone.OutdatedStartNeverRings | mobile/src/ringtone.ts:79-109 | a start that rings began at an earlier step of the script with no stop in between |
| Ringtone.Run | mobile/src/ringtone.ts:76-153 | over any overlapping starts and stops the ringer does what the script determines; with a working module native calls alternate with one start over exactly while the flag is set |
| NotificationPreferences.MuteAffectsOnePeer | mobile/src/notificationPreferences.ts:97-104 | after a mute or unmute, that person (however written) is silenced until the expiry or not at all, and everyone else as before |
| NotificationPreferences.QuietHoursAreAnArc | mobile/src/notificationPreferences.ts:106-118 | quiet exactly when the minutes since the start, mod 1440, are fewer than the schedule's length, mod 1440 |
| NotificationPreferences.ClampedIsMinuteOfDay | mobile/src/notificationPreferences.ts:142-148 | stored minutes are minutes of the day |
| NotificationPreferences.ClampedIsNearest | mobile/src/notificationPreferences.ts:142-148 | a given minute is stored as the nearest minute of the day, itself if it is one |
| NotificationPreferences.DefaultsLetThrough | mobile/src/settingsStorage.ts:427-438 | by default nobody is muted and no time is quiet; quiet hours just switched on run from 22:00 to 7:00 for messages |
| NotificationPreferences.EmptyFileIsDefault | mobile/src/settingsStorage.ts:449-498 | a file with nothing usable gives the defaults |
| NotificationPreferences.StoredPreviewMode | mobile/src/settingsStorage.ts:479-482 | a stored preview mode is taken if it is one of the three |
| NotificationPreferences.Preferences.EnsureLoaded | mobile/src/notificationPreferences.ts:52-73 | the file is read at most once |
| NotificationPreferences.Preferences.ReadSettles | mobile/src/notificationPreferences.ts:61-70 | the file is adopted exactly when nothing was written meanwhile |
| NotificationPreferences.Preferences.Persist | mobile/src/notificationPreferences.ts:120-128 | the cache is the written value and outdates a read in flight |
| NotificationPreferences.Preferences.SetPeerMuted | mobile/src/notificationPreferences.ts:164-186 | writes the muted list and expiry of one peer; a blank id writes nothing |
| NotificationPreferences.Preferences.SetQuietHours | mobile/src/notificationPreferences.ts:142-162 | stores the given minutes when they are minutes of the day, each in its own field, keeping what the caller did not give |
| NotificationPreferences.Preferences.IsQuietHoursActive | mobile/src/notificationPreferences.ts:106-118 | in every reachable state: quiet exactly when the minutes since the stored start, mod 1440, are fewer than the stored length |
| NotificationPreferences.StoredMutesSurviveIff | mobile/src/notificationPreferences.ts:58-73 | a mute in the file that a script does not touch is in force afterwards exactly when the read settled before anything was written |
| NotificationPreferences.WriteBeforeReadUnmutes | mobile/src/notificationPreferences.ts:120-133 | switching messages off before the file is read drops its mutes |
| NotificationPreferences.RestartMutes | mobile/src/settingsStorage.ts:449-498 | a mute survives a restart exactly for the first 500 people listed, and one with a NaN expiry silences for good |
| NotificationPreferences.RestartKeepsIff | mobile/src/settingsStorage.ts:449-563 | a restart changes nothing exactly when every expiry is a time, at most 500 people are muted and none without a name |
| NotificationPreferences.WritesAreKept | mobile/src/notificationPreferences.ts:61-70 | nothing loaded later undoes a write |
| NotificationPreferences.Run | mobile/src/notificationPreferences.ts:22-186 | over any interleaving the cache, without any epochs, is what the script determines: the last write, or else the file once read, and the file is read at most once |
| ThemedStyles.DefaultScaleIsBase | mobile/src/theme.ts:338-343 | the default scale leaves every token at its base size |
| ThemedStyles.ChosenSizes | mobile/src/theme.ts:338-343 | `small`, `large` and `larger` are 9/10, 23/20 and 13/10 of the base size to the nearest point, halves up; any other name leaves it |
| ThemedStyles.Theme.Rescale | mobile/src/theme.ts:894-902 | the token loop leaves the base table scaled once by the new factor, nothing of the old one |
| ThemedStyles.Theme.SetTextScale | mobile/src/theme.ts:879-906 | the typography is the base table scaled by the chosen step; the revision moves exactly when something changed |
| ThemedStyles.Theme.GetThemedStyles | mobile/src/ThemeContext.ts:154-178 | with the current revision the styles are those of the current palette and typography; with an old one, of some revision since; a factory is called exactly when its styles are not cached for that revision |
| ThemedStyles.CurrentRender | mobile/src/ThemeContext.ts:154-178 | a render with the current revision gives the styles of the size the script last chose before it |
| ThemedStyles.BuiltAtMostOnce | mobile/src/theme.ts:913-921 | with current revisions nothing is built twice at one revision |
| ThemedStyles.BuiltAtLeastOnce | mobile/src/ThemeContext.ts:154-178 | everything rendered has been built at the revision it is rendered at |
| ThemedStyles.StaleRenderRebuilds | mobile/src/ThemeContext.ts:162-165 | a render with an old revision between two current ones makes the same stylesheet be built again |
| ThemedStyles.Run | mobile/src/ThemeContext.ts:132-178 | over any interleaving of size changes and renders, typography is the base scaled once by the size last chosen, and every render is of a size no older than its revision; with current revisions only, what is built is each stylesheet at its first render at each revision |
| CallQuality.MosInRange | server/src/callQuality.ts:46-49 | the score lies between 1 and 4.41 for all non-negative measurements; the ceiling of 4.5 never binds |
| CallQuality.MosIsMonotonic | server/src/callQuality.ts:46-49 | more delay, jitter or loss never raises the score |
| CallQuality.RatingDrops | server/src/callQuality.ts:47 | each percent of loss costs 2.5, each millisecond of delay beyond 100 costs 0.024, until nothing is left of 93.2 |
| CallQuality.CubicPoints | server/src/callQuality.ts:48 | the cubic is 1 at 0, 3.1 at 60, 4.5 at 100 |
| CallQuality.CubicDips | server/src/callQuality.ts:48 | at a rating up to 6.5 the cubic is at most 1 |
| CallQuality.CubicRises | server/src/callQuality.ts:48 | from 6.5 to the best rating it never falls |
| CallQuality.CubicAloneIsNotMonotonic | server/src/callQuality.ts:48 | without the clamp a better rating can score worse |
| CallQuality.BucketsPartition | server/src/callQuality.ts:63-66 | the four bucket counts add up to the number of samples |
| CallQuality.OneBucket | server/src/callQuality.ts:63-66 | every score is in exactly one bucket, by the bounds 3.6, 4 and 4.3 from below |
| Waveform.RangeInBounds | mobile/src/voiceRecorder.ts:92-96 | every bar's range is non-empty and inside the samples |
| Waveform.RangesTile | mobile/src/voiceRecorder.ts:91-97 | with at least 48 samples the ranges are consecutive from the first sample to the last |
| Waveform.RangesCover | mobile/src/voiceRecorder.ts:91-97 | with fewer, every range is one sample and every sample is some bar's |
| Waveform.TilesIffEnough | mobile/src/voiceRecorder.ts:91-97 | the ranges are consecutive exactly from 48 samples on |
| Waveform.AllAmplitudesCounted | mobile/src/voiceRecorder.ts:91-98 | with at least 48 samples the ranges' sums add up to the sum of all amplitudes |
| Waveform.BarInRange | mobile/src/voiceRecorder.ts:97-99 | every bar lies in [0,1] after rounding |
| Waveform.BarIsAverage | mobile/src/voiceRecorder.ts:91-100 | a bar is a whole number of thousandths within half of one of the average of its samples |
| Waveform.BuildWaveform | mobile/src/voiceRecorder.ts:84-102 | undefined exactly without samples; otherwise 48 bars, each the rounded average of its range |

## Left out

- React components, hooks, navigation, styles and copy; registration, telemetry, haptics and other members without deep state.
- The server's stores, SQL, migrations and scripts, apart from the multipart session and the MOS expressions.
- Upload: progress callbacks and abort handles, the URLs, headers and expiry times of grants (an expired grant is a nondeterministic 403), base64 and XHR, the delay a 429 asks for, retention's copy, the server's discard marker and `abort`, and pagination of its listings.
- Upload: a whole-object PUT reported as failed may have been stored but does not land later; parts of a multipart session may do both.
- QueuedFiles.OverreachIff: part numbers and times are any natural numbers, whatever the attachment's size and the clock.
- QueuedFiles.Release: unlinking that fails, which the source reports unless the file is already gone.
- Timestamps: what an engine's `Date.parse` makes of non-canonical text is the parameter `engine`; year digits beyond 2^53 are exact here.
- Cache: interleaved operations, because `findCachedAttachment` writes back a snapshot taken before an await.
- AttachmentCache.Cache.Remember: distinct paths are a precondition (`PathFree`); a failing copy or `stat` is `FailToRemember`; the file left behind when a key's extension changes stays on the modelled disk unnamed.
- CacheRuns.Run: saves of the index that fail, after which a restart reloads an older index.
- Cache: the hash itself, the order of integer-like keys in the index object (any order is allowed), unreadable index files, and directories that cannot be listed; `listFiles` is the parameter `files`.
- StorageUsage.MeasureUsage: the `measured` flag.
- Schema: failure messages and paths, prototype keys such as `__proto__`, host objects, and floats other than as reals.
- Redaction: error names, messages and stacks are taken as text, array elements have no getters, lower-casing covers ASCII and the Kelvin sign, and `JSON.stringify` is not modelled; what is logged after the stack is exhausted depends on the engine and is left open.
- DurableLog.Log.PersistLogLine: the promise queue that puts writes in order, and a platform without any way to write.
- CallKeep: interleaved displays, native setup and its errors, the notification and ringtone calls, and `displayIncomingCall` from the show-UI listener.
- SignalingClient: the payload contract is the parameter `contract`; `request` and the parsing of inbound payloads are not modelled.
- Ringtone: how the ringer state is read; `audible` is a parameter.
- Text.TrimLower: letters outside ASCII are lower-cased only where `Lower` models it (ASCII and the Kelvin sign); JavaScript's other mappings are not modelled.
- NotificationPreferences.CasingIsIgnored: likewise, for letters outside ASCII.
- NotificationPreferences: the file's accounts, listeners, and the filtering of expired mutes in `getNotificationPrefs`; the clock is a parameter.
- ThemedStyles: `buildPalette` and its cache, `normalizeThemePreferences` and the resolution of scheme and contrast, which are look-ups; identity of palettes is equality.
- CallQuality.MosInRange: floating-point rounding, percentiles, and the database.
- Waveform.BuildWaveform: floating-point rounding of sums and averages, and the state of a recording.
