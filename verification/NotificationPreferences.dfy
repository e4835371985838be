/** Notification preferences: mobile/src/notificationPreferences.ts, over the file that
    mobile/src/settingsStorage.ts keeps. The file is read once, asynchronously, into a cache that may be
    written meanwhile. */
module NotificationPreferences {
  import opened Wrappers
  import opened Text

  const MINUTES_PER_DAY := 1440

  datatype Target = Messages | Calls | Both

  datatype QuietHours = QuietHours(enabled: bool, startMinutes: int, endMinutes: int, affects: Target)

  /** A stored expiry: a time in milliseconds, or the NaN of an invalid `Date`. */
  datatype Stamp = Ms(ms: int) | NaN

  /** What a caller passes as `expiresAt`; `None` inside is a time that is not a finite number. */
  datatype ExpiresAt = Absent | DateExpiry(time: Option<int>) | NumberExpiry(time: Option<int>)

  datatype Prefs = Prefs(messagesEnabled: bool, mutedPeers: seq<string>, expirations: map<string, Stamp>,
                         quietHours: QuietHours, previewMode: string)

  const DEFAULTS := Prefs(true, [], map[], QuietHours(false, 22 * 60, 7 * 60, Messages), "full")

  // ----- muting -----

  function NormalizePeer(peer: string): string {
    Lower(Trim(peer))
  }

  /** A mute does not depend on how the id is cased, or on spaces around it; and a normalised id is its own
      normal form. */
  lemma CasingIsIgnored(peer: string)
    ensures NormalizePeer(Lower(peer)) == NormalizePeer(peer) == NormalizePeer(Trim(peer))
    ensures NormalizePeer(NormalizePeer(peer)) == NormalizePeer(peer)
  {
    TrimLower(peer);
    LowerIsIdempotent(Trim(peer));
    TrimLower(Trim(peer));
  }

  /** An id is known by its letters alone: in any casing, with any white space around it. */
  lemma IdIsKnown(a: string, id: string, b: string, name: string)
    requires AllSpace(a) && AllSpace(b) && IsTrimmed(id) && HasNoCapitals(name)
    ensures NormalizePeer(a + id + b) == name <==> CasingOf(id, name)
  {
    TrimCuts(a, id, b);
    LowerIsCasing(id, name);
  }

  function ExpiryStamp(e: ExpiresAt): Option<Stamp> {
    match e
    case Absent => None
    case DateExpiry(time) => Some(if time.Some? then Ms(time.value) else NaN)
    case NumberExpiry(time) => if time.Some? then Some(Ms(time.value)) else None
  }

  predicate Lists(peers: seq<string>, normalized: string) {
    exists i :: 0 <= i < |peers| && NormalizePeer(peers[i]) == normalized
  }

  predicate IsPeerMuted(p: Prefs, peer: string, now: int) {
    var n := NormalizePeer(peer);
    n != "" && Lists(p.mutedPeers, n) && Unexpired(p.expirations, n, now)
  }

  predicate Unexpired(expirations: map<string, Stamp>, n: string, now: int) {
    n in expirations ==> expirations[n].Ms? && expirations[n].ms > now
  }

  /** The expirations once the peer `n` has none but `stamp`. */
  function Restamped(expirations: map<string, Stamp>, n: string, stamp: Option<Stamp>): map<string, Stamp> {
    if stamp.Some? then (expirations - {n})[n := stamp.value] else expirations - {n}
  }

  lemma RestampAffectsOne(expirations: map<string, Stamp>, n: string, stamp: Option<Stamp>, m: string, now: int)
    ensures Unexpired(Restamped(expirations, n, stamp), m, now) <==>
              if m == n then stamp.Some? ==> stamp.value.Ms? && stamp.value.ms > now else Unexpired(expirations, m, now)
  {
  }

  function WithoutPeer(peers: seq<string>, normalized: string): seq<string> {
    if peers == [] then []
    else (if NormalizePeer(peers[0]) != normalized then [peers[0]] else []) + WithoutPeer(peers[1..], normalized)
  }

  /** What `setPeerMuted` persists; `None` when the peer id is blank. */
  function WithPeerMuted(p: Prefs, peer: string, muted: bool, expiresAt: ExpiresAt): Option<Prefs> {
    var n := NormalizePeer(peer);
    if n == "" then None else
    var stamp := if muted then ExpiryStamp(expiresAt) else None;
    Some(p.(mutedPeers := MutedList(p.mutedPeers, peer, muted), expirations := Restamped(p.expirations, n, stamp)))
  }

  lemma {:induction false} WithoutPeerLists(peers: seq<string>, gone: string, n: string)
    ensures Lists(WithoutPeer(peers, gone), n) <==> n != gone && Lists(peers, n)
  {
    if peers != [] {
      WithoutPeerLists(peers[1..], gone, n);
      ListsCons(peers[0], peers[1..], n);
      assert [peers[0]] + peers[1..] == peers;
      ListsCons(peers[0], WithoutPeer(peers[1..], gone), n);
    }
  }

  lemma ListsCons(peer: string, peers: seq<string>, n: string)
    ensures Lists([peer] + peers, n) <==> NormalizePeer(peer) == n || Lists(peers, n)
    ensures [] + peers == peers
  {
    var all := [peer] + peers;
    assert all[0] == peer;
    assert forall i :: 0 <= i < |peers| ==> all[i + 1] == peers[i];
    assert forall i :: 1 <= i < |all| ==> all[i] == peers[i - 1];
  }

  function MutedList(peers: seq<string>, peer: string, muted: bool): seq<string> {
    (if muted then [Trim(peer)] else []) + WithoutPeer(peers, NormalizePeer(peer))
  }

  lemma MutedListing(peers: seq<string>, peer: string, muted: bool, m: string)
    ensures Lists(MutedList(peers, peer, muted), m) <==> if m == NormalizePeer(peer) then muted else Lists(peers, m)
  {
    var rest := WithoutPeer(peers, NormalizePeer(peer));
    assert NormalizePeer(Trim(peer)) == NormalizePeer(peer);
    WithoutPeerLists(peers, NormalizePeer(peer), m);
    ListsCons(Trim(peer), rest, m);
  }

  /** Muting silences one person, however their id is written, until the expiry; unmuting restores
      them; nobody else is affected. An invalid `Date` as expiry silences nobody. */
  lemma MuteAffectsOnePeer(p: Prefs, peer: string, muted: bool, expiresAt: ExpiresAt, other: string, now: int)
    requires NormalizePeer(peer) != ""
    ensures WithPeerMuted(p, peer, muted, expiresAt).Some?
    ensures var q := WithPeerMuted(p, peer, muted, expiresAt).value;
            IsPeerMuted(q, other, now) <==>
              if NormalizePeer(other) == NormalizePeer(peer) then
                muted
                && match ExpiryStamp(expiresAt)
                   case None => true
                   case Some(NaN) => false
                   case Some(Ms(t)) => t > now
              else IsPeerMuted(p, other, now)
  {
    MutedListing(p.mutedPeers, peer, muted, NormalizePeer(other));
    var stamp := if muted then ExpiryStamp(expiresAt) else None;
    RestampAffectsOne(p.expirations, NormalizePeer(peer), stamp, NormalizePeer(other), now);
  }

  // ----- quiet hours -----

  /** `isQuietHoursActive` at a minute of the day. */
  predicate IsQuiet(q: QuietHours, target: Target, minutes: int) {
    && q.enabled && (q.affects == Both || q.affects == target) && q.startMinutes != q.endMinutes
    && if q.startMinutes < q.endMinutes then q.startMinutes <= minutes < q.endMinutes
       else minutes >= q.startMinutes || minutes < q.endMinutes
  }

  /** A minute field as `setQuietHours` stores it: clamped to the day, or the old value when it is not
      an integer. */
  function ClampMinutes(value: Option<int>, current: int): int {
    if value.None? then current else if value.value < 0 then 0 else if value.value > 1439 then 1439 else value.value
  }

  predicate MinuteOfDay(m: int) {
    0 <= m < MINUTES_PER_DAY
  }

  /** A given minute is stored as the minute of the day nearest to it. */
  lemma ClampedIsNearest(value: int, current: int, other: int)
    requires MinuteOfDay(other)
    ensures var m := ClampMinutes(Some(value), current);
            && 0 <= m <= 1439 && (0 <= value <= 1439 ==> m == value)
            && Distance(value, m) <= Distance(value, other)
  {
  }

  function Distance(a: int, b: int): nat {
    if a >= b then a - b else b - a
  }

  lemma ClampedIsMinuteOfDay(value: Option<int>, current: int)
    requires MinuteOfDay(current)
    ensures MinuteOfDay(ClampMinutes(value, current))
  {
  }

  /** Quiet hours are the minutes less than a schedule's length after its start, around midnight or
      not. */
  lemma QuietHoursAreAnArc(q: QuietHours, target: Target, minutes: int)
    requires MinuteOfDay(q.startMinutes) && MinuteOfDay(q.endMinutes) && MinuteOfDay(minutes)
    ensures IsQuiet(q, target, minutes) <==>
              q.enabled && (q.affects == Both || q.affects == target)
              && (minutes - q.startMinutes) % MINUTES_PER_DAY < (q.endMinutes - q.startMinutes) % MINUTES_PER_DAY
  {
    var since, length := minutes - q.startMinutes, q.endMinutes - q.startMinutes;
    assert since % MINUTES_PER_DAY == if since >= 0 then since else since + MINUTES_PER_DAY;
    assert length % MINUTES_PER_DAY == if length >= 0 then length else length + MINUTES_PER_DAY;
  }

  /** What all stored preferences satisfy: minutes of the day, one of the preview modes, and expirations by
      normalised id. */
  ghost predicate Tidy(p: Prefs) {
    && MinuteOfDay(p.quietHours.startMinutes) && MinuteOfDay(p.quietHours.endMinutes)
    && IsPreviewMode(p.previewMode) && KeysNormal(p.expirations)
  }

  ghost predicate KeysNormal(expirations: map<string, Stamp>) {
    forall k :: k in expirations ==> k != "" && NormalizePeer(k) == k
  }

  lemma MutedIsTidy(p: Prefs, peer: string, muted: bool, expiresAt: ExpiresAt)
    requires Tidy(p) && NormalizePeer(peer) != ""
    ensures Tidy(WithPeerMuted(p, peer, muted, expiresAt).value)
  {
    CasingIsIgnored(peer);
  }

  // ----- the file -----

  /** What the file holds for the account; a field of the wrong type is `None`, and a `None` among the
      expirations is one that is not a finite number. */
  datatype Stored = Stored(messagesEnabled: Option<bool>, mutedPeers: seq<string>,
                           expirations: seq<(string, Option<int>)>, quietEnabled: Option<bool>,
                           startMinutes: Option<int>, endMinutes: Option<int>, affects: Option<Target>,
                           previewMode: string)

  const MAX_MUTED_PEERS := 500

  predicate IsPreviewMode(mode: string) {
    mode == "full" || mode == "sender" || mode == "generic"
  }

  function NonEmpty(peers: seq<string>): seq<string> {
    if peers == [] then [] else (if peers[0] != "" then [peers[0]] else []) + NonEmpty(peers[1..])
  }

  function FirstPeers(peers: seq<string>): (first: seq<string>)
    ensures first <= peers && |first| == if |peers| <= 500 then |peers| else 500
  {
    if |peers| <= MAX_MUTED_PEERS then peers else peers[..MAX_MUTED_PEERS]
  }

  /** `Object.fromEntries` of the usable expirations, by normalised id: the last one wins. */
  function StampsOf(entries: seq<(string, Option<int>)>): (stamps: map<string, Stamp>)
    ensures KeysNormal(stamps)
  {
    if entries == [] then map[]
    else
      CasingIsIgnored(entries[|entries| - 1].0);
      var init, (peer, time) := StampsOf(entries[..|entries| - 1]), entries[|entries| - 1];
      if NormalizePeer(peer) == "" || time.None? then init else init[NormalizePeer(peer) := Ms(time.value)]
  }

  /** `sanitizeNotificationPrefs`. */
  function Sanitized(f: Stored): (p: Prefs)
    ensures Tidy(p)
  {
    var q := DEFAULTS.quietHours;
    Prefs(f.messagesEnabled.GetOr(true), FirstPeers(NonEmpty(f.mutedPeers)), StampsOf(f.expirations),
          QuietHours(f.quietEnabled.GetOr(false), ClampMinutes(f.startMinutes, q.startMinutes),
                     ClampMinutes(f.endMinutes, q.endMinutes), f.affects.GetOr(q.affects)),
          if IsPreviewMode(f.previewMode) then f.previewMode else DEFAULTS.previewMode)
  }

  /** `entries` lists the expirations, each once; NaN is no time, and is dropped before the file is written. */
  ghost predicate WrittenAs(expirations: map<string, Stamp>, entries: seq<(string, Option<int>)>) {
    && (forall i, j :: 0 <= i < j < |entries| ==> entries[i].0 != entries[j].0)
    && (forall i :: 0 <= i < |entries| ==> entries[i].0 in expirations
                                           && entries[i].1 == TimeOf(expirations[entries[i].0]))
    && (forall k :: k in expirations ==> exists i :: 0 <= i < |entries| && entries[i].0 == k)
  }

  function TimeOf(s: Stamp): Option<int> {
    if s.Ms? then Some(s.ms) else None
  }

  /** Preferences as the file holds them. */
  function Written(p: Prefs, entries: seq<(string, Option<int>)>): Stored {
    Stored(Some(p.messagesEnabled), p.mutedPeers, entries, Some(p.quietHours.enabled), Some(p.quietHours.startMinutes),
           Some(p.quietHours.endMinutes), Some(p.quietHours.affects), p.previewMode)
  }

  lemma {:induction false} StampsAt(entries: seq<(string, Option<int>)>, i: nat)
    requires forall a, b :: 0 <= a < b < |entries| ==> entries[a].0 != entries[b].0
    requires forall a :: 0 <= a < |entries| ==> entries[a].0 != "" && NormalizePeer(entries[a].0) == entries[a].0
    requires i < |entries|
    ensures var k, time := entries[i].0, entries[i].1;
            && (k in StampsOf(entries) <==> time.Some?)
            && (time.Some? ==> StampsOf(entries)[k] == Ms(time.value))
  {
    var n := |entries| - 1;
    if i < n {
      StampsAt(entries[..n], i);
      assert entries[..n][i] == entries[i] && entries[i].0 != entries[n].0;
    } else {
      StampsOnly(entries[..n], entries[n].0);
    }
  }

  lemma {:induction false} StampsOnly(entries: seq<(string, Option<int>)>, k: string)
    requires forall a :: 0 <= a < |entries| ==> NormalizePeer(entries[a].0) == entries[a].0 != k
    ensures k !in StampsOf(entries)
  {
    if entries != [] {
      StampsOnly(entries[..|entries| - 1], k);
    }
  }

  lemma {:induction false} NonEmptyLists(peers: seq<string>, n: string)
    requires n != ""
    ensures Lists(NonEmpty(peers), n) <==> Lists(peers, n)
    ensures |NonEmpty(peers)| <= |peers|
  {
    if peers != [] {
      NonEmptyLists(peers[1..], n);
      ListsCons(peers[0], peers[1..], n);
      ListsCons(peers[0], NonEmpty(peers[1..]), n);
      assert [peers[0]] + peers[1..] == peers;
      assert [] + NonEmpty(peers[1..]) == NonEmpty(peers[1..]);
      EmptyIsBlank();
    }
  }

  lemma EmptyIsBlank()
    ensures NormalizePeer("") == ""
  {
  }

  /** A file that holds nothing usable gives the defaults. */
  lemma EmptyFileIsDefault(mode: string)
    requires mode !in {"full", "sender", "generic"}
    ensures Sanitized(Stored(None, [], [], None, None, None, None, mode)) == DEFAULTS
  {
  }

  /** By default messages come through from everyone at any time; quiet hours that are just switched on are for
      messages, from ten in the evening to seven in the morning. */
  lemma DefaultsLetThrough(peer: string, target: Target, minutes: int, now: int)
    requires 0 <= minutes < 1440
    ensures DEFAULTS.messagesEnabled && DEFAULTS.previewMode == "full"
    ensures !IsPeerMuted(DEFAULTS, peer, now) && !IsQuiet(DEFAULTS.quietHours, target, minutes)
    ensures IsQuiet(DEFAULTS.quietHours.(enabled := true), target, minutes)
            <==> target == Messages && (minutes >= 1320 || minutes < 420)
  {
  }

  /** A preview mode in the file is taken if it is one of the three. */
  lemma StoredPreviewMode(f: Stored)
    ensures Sanitized(f).previewMode == if f.previewMode in {"full", "sender", "generic"} then f.previewMode else "full"
  {
  }

  lemma StampOf(expirations: map<string, Stamp>, entries: seq<(string, Option<int>)>, k: string)
    requires WrittenAs(expirations, entries) && KeysNormal(expirations)
    ensures k in StampsOf(entries) <==> k in expirations && expirations[k].Ms?
    ensures k in StampsOf(entries) ==> StampsOf(entries)[k] == expirations[k]
  {
    if k in expirations {
      var i :| 0 <= i < |entries| && entries[i].0 == k;
      StampsAt(entries, i);
    } else {
      forall a | 0 <= a < |entries|
        ensures NormalizePeer(entries[a].0) == entries[a].0 != k
      {
        assert entries[a].0 in expirations;
      }
      StampsOnly(entries, k);
    }
  }

  /** A mute after a restart: those of the first 500 people are kept, and one whose expiry was an invalid `Date`
      has none any more, so it silences for good whom it did not silence before. */
  lemma RestartMutes(p: Prefs, entries: seq<(string, Option<int>)>, peer: string, now: int)
    requires WrittenAs(p.expirations, entries) && Tidy(p)
    ensures var n := NormalizePeer(peer);
            IsPeerMuted(Sanitized(Written(p, entries)), peer, now) <==>
              && n != "" && Lists(FirstPeers(NonEmpty(p.mutedPeers)), n)
              && (n in p.expirations && p.expirations[n].Ms? ==> p.expirations[n].ms > now)
    ensures var n := NormalizePeer(peer);
            |p.mutedPeers| <= 500 && n != "" ==>
              (Lists(FirstPeers(NonEmpty(p.mutedPeers)), n) <==> Lists(p.mutedPeers, n))
  {
    var n := NormalizePeer(peer);
    if n != "" {
      NonEmptyLists(p.mutedPeers, n);
    }
    StampOf(p.expirations, entries, n);
  }

  lemma {:induction false} NonEmptyKeeps(peers: seq<string>)
    ensures |NonEmpty(peers)| <= |peers| && (NonEmpty(peers) == peers <==> "" !in peers)
    ensures "" !in NonEmpty(peers)
  {
    if peers != [] {
      NonEmptyKeeps(peers[1..]);
      assert peers == [peers[0]] + peers[1..];
      if peers[0] == "" {
        assert |NonEmpty(peers)| < |peers|;
      }
    }
  }

  lemma StampsAre(expirations: map<string, Stamp>, entries: seq<(string, Option<int>)>)
    requires WrittenAs(expirations, entries) && KeysNormal(expirations)
    ensures forall k :: k in StampsOf(entries) <==> k in expirations && expirations[k].Ms?
    ensures forall k :: k in StampsOf(entries) ==> StampsOf(entries)[k] == expirations[k]
  {
    forall k
      ensures k in StampsOf(entries) <==> k in expirations && expirations[k].Ms?
      ensures k in StampsOf(entries) ==> StampsOf(entries)[k] == expirations[k]
    {
      StampOf(expirations, entries, k);
    }
  }

  /** A restart changes nothing at all exactly when every expiry is a time, at most 500 people are muted and no
      one is listed without a name. */
  lemma RestartKeepsIff(p: Prefs, entries: seq<(string, Option<int>)>)
    requires WrittenAs(p.expirations, entries) && Tidy(p)
    ensures Sanitized(Written(p, entries)) == p <==>
              && (forall k :: k in p.expirations ==> p.expirations[k].Ms?)
              && |p.mutedPeers| <= 500 && "" !in p.mutedPeers
  {
    StampsAre(p.expirations, entries);
    NonEmptyKeeps(p.mutedPeers);
    var q := Sanitized(Written(p, entries));
    assert q.expirations == StampsOf(entries);
    assert StampsOf(entries) == p.expirations <==> forall k :: k in p.expirations ==> p.expirations[k].Ms?;
    assert q.mutedPeers == p.mutedPeers <==> |p.mutedPeers| <= 500 && "" !in p.mutedPeers;
  }

  // ----- hydration -----

  class Preferences {
    var cache: Prefs
    var epoch: nat
    /** Whether `hydration` holds a promise. */
    var hydrating: bool
    /** The read in flight, by the epoch it started at. */
    var reading: Option<nat>

    ghost var fileReads: nat
    ghost var writes: seq<Prefs>
    ghost var loaded: Option<Prefs>

    /** What the cache should hold: the last write, or else the file once read. */
    ghost function Expected(): Prefs
      reads this
    {
      if writes != [] then writes[|writes| - 1] else if loaded.Some? then loaded.value else DEFAULTS
    }

    ghost predicate Valid()
      reads this
    {
      && cache == Expected() && fileReads <= 1 && Tidy(cache)
      && (hydrating <==> fileReads == 1 || writes != [])
      && (fileReads == 0 ==> loaded.None? && reading.None?)
      && (reading.Some? ==> loaded.None? && (reading == Some(epoch) <==> writes == []))
      && (reading.Some? ==> reading.value <= epoch)
    }

    constructor ()
      ensures Valid() && cache == DEFAULTS && writes == [] && fileReads == 0
    {
      cache, epoch, hydrating, reading := DEFAULTS, 0, false, None;
      fileReads, writes, loaded := 0, [], None;
    }

    /** `ensureNotificationPrefsLoaded`, up to its await. */
    method EnsureLoaded()
      requires Valid()
      modifies `epoch, `hydrating, `reading, `fileReads
      ensures Valid() && hydrating
      ensures fileReads == if old(hydrating) then old(fileReads) else 1
      ensures if old(hydrating) then reading == old(reading) && epoch == old(epoch)
              else reading == Some(epoch) && epoch == old(epoch) + 1
    {
      if !hydrating {
        epoch := epoch + 1;
        hydrating, reading, fileReads := true, Some(epoch), fileReads + 1;
      }
    }

    /** The read settles. A file read before a write is out of date and is not adopted. */
    method ReadSettles(file: Stored)
      requires Valid() && reading.Some?
      modifies `cache, `reading, `loaded
      ensures Valid() && reading.None? && loaded == Some(Sanitized(file))
      ensures cache == if writes == [] then Sanitized(file) else old(cache)
    {
      if reading == Some(epoch) {
        cache := Sanitized(file);
      }
      loaded, reading := Some(Sanitized(file)), None;
    }

    /** `persist`, as far as the cache goes. */
    method Persist(next: Prefs)
      requires Valid() && Tidy(next)
      modifies `cache, `epoch, `hydrating, `writes
      ensures Valid() && cache == next && writes == old(writes) + [next] && hydrating && epoch == old(epoch) + 1
    {
      cache := next;
      epoch := epoch + 1;
      hydrating := true;
      writes := writes + [next];
    }

    /** `setMessageNotificationsEnabled`. */
    method SetMessagesEnabled(enabled: bool)
      requires Valid()
      modifies `cache, `epoch, `hydrating, `writes
      ensures Valid() && cache == old(cache).(messagesEnabled := enabled)
      ensures writes == old(writes) + [cache] && hydrating
    {
      Persist(cache.(messagesEnabled := enabled));
    }

    /** `setNotificationPreviewMode`. */
    method SetPreviewMode(mode: string) returns (accepted: bool)
      requires Valid()
      modifies `cache, `epoch, `hydrating, `writes
      ensures Valid() && (accepted <==> mode in {"full", "sender", "generic"})
      ensures accepted ==> cache == old(cache).(previewMode := mode) && writes == old(writes) + [cache] && hydrating
      ensures !accepted ==> cache == old(cache) && writes == old(writes) && hydrating == old(hydrating)
    {
      accepted := IsPreviewMode(mode);
      if accepted {
        Persist(cache.(previewMode := mode));
      }
    }

    /** `isQuietHoursActive` at a minute of the day: exactly less than the schedule's length after its start. */
    method IsQuietHoursActive(target: Target, minutes: int) returns (quiet: bool)
      requires Valid() && MinuteOfDay(minutes)
      ensures var q := cache.quietHours;
              quiet <==> q.enabled && (q.affects == Both || q.affects == target)
                         && (minutes - q.startMinutes) % MINUTES_PER_DAY
                            < (q.endMinutes - q.startMinutes) % MINUTES_PER_DAY
    {
      var q := cache.quietHours;
      QuietHoursAreAnArc(q, target, minutes);
      if !q.enabled || (q.affects != Both && q.affects != target) || q.startMinutes == q.endMinutes {
        return false;
      }
      quiet := if q.startMinutes < q.endMinutes then minutes >= q.startMinutes && minutes < q.endMinutes
               else minutes >= q.startMinutes || minutes < q.endMinutes;
    }

    /** `setPeerMuted`. */
    method SetPeerMuted(peer: string, muted: bool, expiresAt: ExpiresAt) returns (accepted: bool)
      requires Valid()
      modifies `cache, `epoch, `hydrating, `writes
      ensures Valid() && (accepted <==> NormalizePeer(peer) != "")
      ensures accepted ==> writes == old(writes) + [cache] && hydrating
      ensures accepted ==> Some(cache) == WithPeerMuted(old(cache), peer, muted, expiresAt)
      ensures cache == old(cache).(mutedPeers := cache.mutedPeers, expirations := cache.expirations)
      ensures accepted && muted ==> cache.mutedPeers != [] && cache.mutedPeers[0] == Trim(peer)
      ensures !accepted ==> cache == old(cache) && writes == old(writes) && hydrating == old(hydrating)
    {
      var next := WithPeerMuted(cache, peer, muted, expiresAt);
      accepted := next.Some?;
      if accepted {
        MutedIsTidy(cache, peer, muted, expiresAt);
        Persist(next.value);
      }
    }

    /** `setQuietHours`. */
    method SetQuietHours(hours: Hours)
      requires Valid()
      modifies `cache, `epoch, `hydrating, `writes
      ensures Valid() && cache == WithQuietHours(old(cache), hours) && writes == old(writes) + [cache] && hydrating
      ensures forall m :: hours.start == Some(m) && 0 <= m <= 1439 ==> cache.quietHours.startMinutes == m
      ensures forall m :: hours.end == Some(m) && 0 <= m <= 1439 ==> cache.quietHours.endMinutes == m
      ensures hours.start.None? ==> cache.quietHours.startMinutes == old(cache).quietHours.startMinutes
      ensures hours.end.None? ==> cache.quietHours.endMinutes == old(cache).quietHours.endMinutes
      ensures cache.quietHours.enabled == hours.enabled
      ensures cache.quietHours.affects == if hours.affects.Some? then hours.affects.value
                                          else old(cache).quietHours.affects
      ensures cache == old(cache).(quietHours := cache.quietHours)
    {
      var was := cache.quietHours;
      var next := QuietHours(hours.enabled, ClampMinutes(hours.start, was.startMinutes),
                             ClampMinutes(hours.end, was.endMinutes),
                             if hours.affects.Some? then hours.affects.value else was.affects);
      Persist(cache.(quietHours := next));
    }

    /** The state without epochs. */
    ghost function Snapshot(): State
      reads this
    {
      State(hydrating, reading.Some?, loaded, writes)
    }
  }

  // ----- what a script does -----

  /** What a caller passes for quiet hours; a minute that is not an integer is `None`. */
  datatype Hours = Hours(enabled: bool, start: Option<int>, end: Option<int>, affects: Option<Target>)

  datatype Step =
    | Load | Settle(file: Stored) | Enable(enabled: bool) | Preview(mode: string)
    | Mute(peer: string, muted: bool, expiresAt: ExpiresAt) | Quiet(hours: Hours)

  /** The preferences without epochs or promises: whether a read has been asked for or made needless, whether
      one is under way, what it gave, and what was written. */
  datatype State = State(settled: bool, reading: bool, loaded: Option<Prefs>, writes: seq<Prefs>) {
    /** The last write, or else the file once read. */
    function Current(): Prefs {
      if writes != [] then writes[|writes| - 1] else if loaded.Some? then loaded.value else DEFAULTS
    }
  }

  function WithQuietHours(p: Prefs, h: Hours): Prefs {
    p.(quietHours := QuietHours(h.enabled, ClampMinutes(h.start, p.quietHours.startMinutes),
                                ClampMinutes(h.end, p.quietHours.endMinutes),
                                if h.affects.Some? then h.affects.value else p.quietHours.affects))
  }

  /** What a step writes, if anything. */
  function WrittenBy(s: State, step: Step): Option<Prefs> {
    match step
    case Enable(enabled) => Some(s.Current().(messagesEnabled := enabled))
    case Preview(mode) => if IsPreviewMode(mode) then Some(s.Current().(previewMode := mode)) else None
    case Mute(peer, muted, expiresAt) => WithPeerMuted(s.Current(), peer, muted, expiresAt)
    case Quiet(hours) => Some(WithQuietHours(s.Current(), hours))
    case _ => None
  }

  function Next(s: State, step: Step): State {
    match step
    case Load => if s.settled then s else s.(settled := true, reading := true)
    case Settle(file) => if s.reading then s.(reading := false, loaded := Some(Sanitized(file))) else s
    case _ =>
      if WrittenBy(s, step).Some? then s.(settled := true, writes := s.writes + [WrittenBy(s, step).value]) else s
  }

  function Play(s: State, script: seq<Step>): State {
    if script == [] then s else Next(Play(s, script[..|script| - 1]), script[|script| - 1])
  }

  /** A write is never undone: whatever loads and settles later, the cache is what was written. */
  lemma {:induction false} WritesAreKept(s: State, script: seq<Step>)
    requires s.writes != [] && forall i :: 0 <= i < |script| ==> script[i].Load? || script[i].Settle?
    ensures Play(s, script).writes == s.writes && Play(s, script).Current() == s.Current()
  {
    if script != [] {
      WritesAreKept(s, script[..|script| - 1]);
    }
  }

  const START := State(false, false, None, [])

  /** The file was adopted: its read settled before anything was written. */
  predicate Adopts(s: State, script: seq<Step>) {
    script != []
    && var init := script[..|script| - 1];
       || Adopts(s, init)
       || (script[|script| - 1].Settle? && Play(s, init).reading && Play(s, init).writes == [])
  }

  /** No step mutes or unmutes this person. */
  ghost predicate Untouched(script: seq<Step>, normalized: string) {
    forall i :: 0 <= i < |script| && script[i].Mute? ==> NormalizePeer(script[i].peer) != normalized
  }

  lemma {:induction false} OneRead(script: seq<Step>)
    ensures Play(START, script).reading ==> Play(START, script).loaded.None? && !Adopts(START, script)
    ensures Play(START, script).settled || (!Play(START, script).reading && Play(START, script).loaded.None?)
    ensures Adopts(START, script) ==> Play(START, script).loaded.Some?
  {
    if script != [] {
      OneRead(script[..|script| - 1]);
    }
  }

  lemma WriteSparesOthers(s: State, step: Step, peer: string, now: int)
    requires WrittenBy(s, step).Some? && (step.Mute? ==> NormalizePeer(step.peer) != NormalizePeer(peer))
    ensures IsPeerMuted(WrittenBy(s, step).value, peer, now) <==> IsPeerMuted(s.Current(), peer, now)
  {
    if step.Mute? {
      MuteAffectsOnePeer(s.Current(), step.peer, step.muted, step.expiresAt, peer, now);
    }
  }

  lemma MutesStep(s: State, step: Step, adopted: bool, peer: string, now: int)
    requires (step.Mute? ==> NormalizePeer(step.peer) != NormalizePeer(peer)) && (adopted ==> s.loaded.Some?)
    requires s.reading ==> s.loaded.None? && !adopted
    requires IsPeerMuted(s.Current(), peer, now) <==> adopted && IsPeerMuted(s.loaded.value, peer, now)
    ensures var t, adopts := Next(s, step), adopted || (step.Settle? && s.reading && s.writes == []);
            && (adopts ==> t.loaded.Some?)
            && (IsPeerMuted(t.Current(), peer, now) <==> adopts && IsPeerMuted(t.loaded.value, peer, now))
  {
    if WrittenBy(s, step).Some? {
      WriteSparesOthers(s, step, peer, now);
    }
  }

  /** A mute in the file that a script does not touch is in force afterwards exactly when the file was adopted:
      a write before the read settles starts from the defaults and drops every stored mute. */
  lemma {:induction false} StoredMutesSurviveIff(script: seq<Step>, peer: string, now: int)
    requires Untouched(script, NormalizePeer(peer))
    ensures Adopts(START, script) ==> Play(START, script).loaded.Some?
    ensures IsPeerMuted(Play(START, script).Current(), peer, now)
            <==> Adopts(START, script) && IsPeerMuted(Play(START, script).loaded.value, peer, now)
  {
    if script != [] {
      var init, last := script[..|script| - 1], script[|script| - 1];
      OneRead(init);
      StoredMutesSurviveIff(init, peer, now);
      MutesStep(Play(START, init), last, Adopts(START, init), peer, now);
    }
  }

  /** Switching messages off before the file is read: a person muted in the file is muted no longer. */
  lemma WriteBeforeReadUnmutes(file: Stored, peer: string, now: int)
    ensures var q := Play(START, [Load, Enable(false), Settle(file)]);
            q.loaded == Some(Sanitized(file)) && !IsPeerMuted(q.Current(), peer, now)
  {
    var s, script := Play(START, []), [Load, Enable(false), Settle(file)];
    assert [Load][..0] == [] && Play(START, [Load]) == Next(s, Load);
    var loading := Play(START, [Load]);
    assert [Load, Enable(false)][..1] == [Load] && Play(START, [Load, Enable(false)]) == Next(loading, Enable(false));
    assert script[..2] == [Load, Enable(false)];
  }

  /** Any interleaving of loads, writes and the one read settling does what its script says: the cache is the
      last value written if there is one, else the file once read, and the file is read at most once. */
  method Run(p: Preferences, script: seq<Step>)
    requires p.Valid()
    modifies p
    ensures p.Valid() && p.Snapshot() == Play(old(p.Snapshot()), script)
    ensures p.cache == Play(old(p.Snapshot()), script).Current() && p.fileReads <= 1
  {
    ghost var start := p.Snapshot();
    for i := 0 to |script|
      invariant p.Valid() && p.Snapshot() == Play(start, script[..i])
    {
      assert script[..i + 1][..i] == script[..i];
      Perform(p, script[i]);
    }
    assert script[..|script|] == script;
  }

  method Perform(p: Preferences, step: Step)
    requires p.Valid()
    modifies p
    ensures p.Valid() && p.Snapshot() == Next(old(p.Snapshot()), step)
  {
    match step {
      case Load => p.EnsureLoaded();
      case Settle(file) =>
        if p.reading.Some? {
          p.ReadSettles(file);
        }
      case Enable(enabled) => p.SetMessagesEnabled(enabled);
      case Preview(mode) => var accepted := p.SetPreviewMode(mode);
      case Mute(peer, muted, expiresAt) => var accepted := p.SetPeerMuted(peer, muted, expiresAt);
      case Quiet(hours) => p.SetQuietHours(hours);
    }
  }
}
