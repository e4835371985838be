/** Names of the files a queued upload owns, and their cleanup: retainQueuedAttachment and
    releaseQueuedAttachment of mobile/src/queuedAttachmentUpload.ts. */
module QueuedFiles {
  import opened Wrappers
  import opened Digits
  import opened QueuedUpload

  /** An entry of the caches directory. */
  datatype Entry = Entry(name: string, isFile: bool)

  predicate StartsWith(s: string, prefix: string) {
    prefix <= s
  }

  function RetainedUri(directory: string, identity: string): string {
    "file://" + directory + "/wetalk-upload-" + identity
  }

  /** The upload a retained URI belongs to, as cleanup reads it off the URI. */
  function IdentityOf(directory: string, uri: string): Option<string> {
    var prefix := RetainedUri(directory, "");
    if StartsWith(uri, prefix) && ValidIdentity(uri[|prefix|..]) then Some(uri[|prefix|..]) else None
  }

  function SlicePrefix(identity: string): string {
    "wetalk-part-" + identity + "-"
  }

  /** Name of a slice file: `rest` is what a drain puts after its identity. */
  function SliceName(identity: string, rest: string): string {
    SlicePrefix(identity) + rest
  }

  /** What a drain puts there: the part number, the time and the random digits of its attempt. */
  function SliceRest(partNumber: nat, now: nat, random: string): string {
    Decimal(partNumber) + ("-" + (Decimal(now) + ("-" + random)))
  }

  /** Part numbers start at 1; `Math.random().toString(36).slice(2)` has no dash. */
  predicate Drawn(partNumber: nat, random: string) {
    partNumber >= 1 && '-' !in random
  }

  predicate Owned(e: Entry, identity: string) {
    e.isFile && StartsWith(e.name, SlicePrefix(identity))
  }

  /** The entries that are not this upload's slices, in order. */
  function Others(entries: seq<Entry>, identity: string): (kept: seq<Entry>)
    ensures forall e :: e in kept <==> e in entries && !Owned(e, identity)
  {
    if entries == [] then []
    else Others(entries[..|entries| - 1], identity)
         + if Owned(entries[|entries| - 1], identity) then [] else [entries[|entries| - 1]]
  }

  /** Cleanup recognises exactly the URIs that retention hands out. */
  lemma ReleaseRecognisesRetained(directory: string, uri: string, identity: string)
    ensures IdentityOf(directory, uri) == Some(identity)
            <==> ValidIdentity(identity) && uri == RetainedUri(directory, identity)
  {
    var prefix := RetainedUri(directory, "");
    assert RetainedUri(directory, identity) == prefix + identity;
    if StartsWith(uri, prefix) {
      assert uri == prefix + uri[|prefix|..];
    }
  }

  /** Which slices cleanup takes: those whose identity and suffix read on from its own identity. */
  lemma OwnedIff(mine: string, theirs: string, rest: string)
    ensures Owned(Entry(SliceName(theirs, rest), true), mine) <==> StartsWith(theirs + "-" + rest, mine + "-")
  {
    var head := "wetalk-part-";
    var name, prefix := head + (theirs + "-" + rest), head + (mine + "-");
    assert SliceName(theirs, rest) == name && SlicePrefix(mine) == prefix;
    assert name[|head|..] == theirs + "-" + rest && prefix[|head|..] == mine + "-";
    if StartsWith(name, prefix) {
      assert name[..|prefix|][|head|..] == prefix[|head|..];
      assert name[..|prefix|][|head|..] == (theirs + "-" + rest)[..|mine| + 1];
    }
  }

  /** Among identities of one length, such as UUIDs, cleanup takes its own slices and no others. */
  lemma EqualLengthsAreSafe(mine: string, theirs: string, rest: string)
    requires |mine| == |theirs|
    ensures Owned(Entry(SliceName(theirs, rest), true), mine) <==> mine == theirs
  {
    OwnedIff(mine, theirs, rest);
    assert (theirs + "-" + rest)[..|theirs|] == theirs;
    assert (mine + "-")[..|mine|] == mine;
    if mine == theirs {
      assert theirs + "-" + rest == (mine + "-") + rest;
    }
  }

  predicate IsPartText(p: string) {
    IsNumeral(p) && p[0] != '0'
  }

  /** What a slice name can hold before its second or its third dash: a part number, or a part number and
      a time. */
  ghost predicate CutsRest(p: string) {
    || IsPartText(p)
    || exists i :: 0 <= i < |p| && p[i] == '-' && IsPartText(p[..i]) && IsNumeral(p[i + 1..])
  }

  /** One identity reads on into a slice name of the other. */
  ghost predicate Overreaches(mine: string, theirs: string) {
    || StartsWith(theirs, mine + "-")
    || (StartsWith(mine, theirs + "-") && CutsRest(mine[|theirs| + 1..]))
  }

  lemma DashesOfRest(partNumber: nat, now: nat, random: string, i: int)
    requires Drawn(partNumber, random)
    ensures var rest, p, d := SliceRest(partNumber, now, random), Decimal(partNumber), Decimal(now);
            0 <= i < |rest| ==> (rest[i] == '-' <==> i == |p| || i == |p| + 1 + |d|)
  {
    DecimalIsNumeral(partNumber);
    DecimalIsNumeral(now);
  }

  /** What can stand before a dash in a slice name. */
  lemma CutsIff(partNumber: nat, now: nat, random: string, p: string)
    requires Drawn(partNumber, random)
    ensures var rest := SliceRest(partNumber, now, random);
            StartsWith(rest, p + "-") <==> p == Decimal(partNumber) || p == Decimal(partNumber) + ("-" + Decimal(now))
  {
    var rest, k, d := SliceRest(partNumber, now, random), Decimal(partNumber), Decimal(now);
    if StartsWith(rest, p + "-") {
      assert rest[..|p| + 1] == p + "-";
      assert rest[|p|] == (p + "-")[|p|] == '-';
      DashesOfRest(partNumber, now, random, |p|);
      assert p == rest[..|p|];
      assert rest[..|k|] == k && rest[..|k| + 1 + |d|] == k + ("-" + d);
    }
    assert rest == (k + "-") + (d + ("-" + random)) == ((k + ("-" + d)) + "-") + random;
  }

  lemma SplitAtDash(p: string, i: int)
    requires 0 <= i < |p| && p[i] == '-'
    ensures p == p[..i] + ("-" + p[i + 1..])
  {
  }

  lemma SomeRest(p: string) returns (partNumber: nat, now: nat)
    requires CutsRest(p)
    ensures Drawn(partNumber, "") && StartsWith(SliceRest(partNumber, now, ""), p + "-")
  {
    if IsPartText(p) {
      NumeralIsDecimal(p);
      partNumber, now := Value(p), 0;
    } else {
      var i :| 0 <= i < |p| && p[i] == '-' && IsPartText(p[..i]) && IsNumeral(p[i + 1..]);
      SplitAtDash(p, i);
      partNumber, now := StampedRest(p[..i], p[i + 1..]);
    }
    CutsIff(partNumber, now, "", p);
  }

  lemma StampedRest(k: string, d: string) returns (partNumber: nat, now: nat)
    requires IsPartText(k) && IsNumeral(d)
    ensures Drawn(partNumber, "") && Decimal(partNumber) == k && Decimal(now) == d
  {
    NumeralIsDecimal(k);
    NumeralIsDecimal(d);
    partNumber, now := Value(k), Value(d);
  }

  lemma RestCut(partNumber: nat, now: nat, random: string, p: string)
    requires Drawn(partNumber, random) && StartsWith(SliceRest(partNumber, now, random), p + "-")
    ensures CutsRest(p)
  {
    CutsIff(partNumber, now, random, p);
    DecimalIsNumeral(partNumber);
    DecimalIsNumeral(now);
    var k := Decimal(partNumber);
    if p != k {
      assert p[|k|] == '-' && p[..|k|] == k && p[|k| + 1..] == Decimal(now);
    }
  }

  lemma SharedHead(mine: string, theirs: string, rest: string)
    requires StartsWith(mine, theirs + "-")
    ensures StartsWith(theirs + "-" + rest, mine + "-") <==> StartsWith(rest, mine[|theirs| + 1..] + "-")
  {
    var head, p := theirs + "-", mine[|theirs| + 1..] + "-";
    assert mine + "-" == head + p;
    assert (head + rest)[|head|..] == rest && (head + p)[|head|..] == p;
    if StartsWith(head + rest, head + p) {
      assert rest[..|p|] == (head + rest)[|head|..|head| + |p|] == p;
    }
  }

  /** A slice of another upload that is taken has one of the two shapes. */
  lemma TakenOverreaches(mine: string, theirs: string, partNumber: nat, now: nat, random: string)
    requires mine != theirs && Drawn(partNumber, random)
    requires Owned(Entry(SliceName(theirs, SliceRest(partNumber, now, random)), true), mine)
    ensures Overreaches(mine, theirs)
  {
    var rest := SliceRest(partNumber, now, random);
    OwnedIff(mine, theirs, rest);
    var whole := theirs + "-" + rest;
    if |mine| < |theirs| {
      assert theirs[..|mine| + 1] == whole[..|mine| + 1] == mine + "-";
    } else if |mine| == |theirs| {
      EqualLengthsAreSafe(mine, theirs, rest);
    } else {
      assert mine[..|theirs| + 1] == (mine + "-")[..|theirs| + 1] == whole[..|theirs| + 1] == theirs + "-";
      SharedHead(mine, theirs, rest);
      RestCut(partNumber, now, random, mine[|theirs| + 1..]);
    }
  }

  /** Between different identities of any length, a slice that some drain of `theirs` can write is taken by
      the cleanup of `mine` exactly when `theirs` is `mine`, a dash and more, or `mine` is `theirs`, a dash
      and a part number, with or without a dash and a time. */
  lemma OverreachIff(mine: string, theirs: string)
    requires mine != theirs
    ensures (exists partNumber, now, random ::
               Drawn(partNumber, random)
               && Owned(Entry(SliceName(theirs, SliceRest(partNumber, now, random)), true), mine))
            <==> Overreaches(mine, theirs)
  {
    forall partNumber, now, random | Drawn(partNumber, random)
           && Owned(Entry(SliceName(theirs, SliceRest(partNumber, now, random)), true), mine)
      ensures Overreaches(mine, theirs)
    {
      TakenOverreaches(mine, theirs, partNumber, now, random);
    }
    if StartsWith(theirs, mine + "-") {
      OwnedIff(mine, theirs, SliceRest(1, 0, ""));
      assert StartsWith(theirs + "-" + SliceRest(1, 0, ""), theirs);
      assert Drawn(1, "");
    } else if StartsWith(mine, theirs + "-") && CutsRest(mine[|theirs| + 1..]) {
      var partNumber, now := SomeRest(mine[|theirs| + 1..]);
      SharedHead(mine, theirs, SliceRest(partNumber, now, ""));
      OwnedIff(mine, theirs, SliceRest(partNumber, now, ""));
    }
  }

  /** Releasing `a-1` takes the slices of part 1 of `a`; releasing `a-b` takes none of `a`'s. */
  lemma OverreachExamples()
    ensures Owned(Entry(SliceName("a", SliceRest(1, 7, "x")), true), "a-1")
    ensures !Overreaches("a-b", "a")
  {
    OwnedIff("a-1", "a", SliceRest(1, 7, "x"));
    SharedHead("a-1", "a", SliceRest(1, 7, "x"));
    assert "a-1"[2..] == "1" == Decimal(1);
    CutsIff(1, 7, "x", "1");
    assert "a-b"[2..] == "b" && "a" + "-" == "a-" && "a-b"[..2] == "a-";
    assert !IsDigit('b');
  }

  /** `releaseQueuedAttachment` where unlinking works: nothing for a foreign URI, otherwise the
      retained copy goes, and of the caches directory exactly the owned slices. */
  method Release(directory: string, uri: string, documents: set<string>, caches: seq<Entry>)
    returns (documents': set<string>, caches': seq<Entry>)
    ensures match IdentityOf(directory, uri)
            case None => documents' == documents && caches' == caches
            case Some(identity) => documents' == documents - {uri} && caches' == Others(caches, identity)
  {
    var identity := IdentityOf(directory, uri);
    if identity.None? {
      return documents, caches;
    }
    documents' := documents - {uri};
    caches' := [];
    for i := 0 to |caches|
      invariant caches' == Others(caches[..i], identity.value)
    {
      assert caches[..i + 1][..i] == caches[..i];
      if !Owned(caches[i], identity.value) {
        caches' := caches' + [caches[i]];
      }
    }
    assert caches[..|caches|] == caches;
  }

  /** The file behind a worker's slice. */
  function SliceEntry(identity: string, f: SliceFile): Entry {
    Entry(SliceName(identity, SliceRest(f.partNumber, f.attemptId.now, f.attemptId.random)), true)
  }

  /** Every slice file of the worker is in the caches directory. */
  ghost predicate Present(w: Worker, caches: seq<Entry>)
    reads w
  {
    forall f :: f in w.slices ==> SliceEntry(w.messageId, f) in caches
  }

  /** The caches directory once a worker has run: its slice files after whatever else is there. */
  method ListCaches(w: Worker, others: seq<Entry>) returns (caches: seq<Entry>)
    ensures others <= caches && Present(w, caches)
  {
    caches := others;
    var rest := w.slices.Keys;
    while rest != {}
      invariant others <= caches && rest <= w.slices.Keys
      invariant forall f :: f in w.slices && f !in rest ==> SliceEntry(w.messageId, f) in caches
    {
      var f :| f in rest;
      caches, rest := caches + [SliceEntry(w.messageId, f)], rest - {f};
    }
  }

  /** Any number of drains, each ending however it ends, then the release of the upload's retained copy: of
      the slice files the drains left, none remains, and what the prefix test does not match stays. */
  method RunThenRelease(w: Worker, n: nat, directory: string, documents: set<string>, others: seq<Entry>)
    returns (last: Outcome<string>, documents': set<string>, caches: seq<Entry>, caches': seq<Entry>)
    requires w.Valid() && w.requests == [] && w.puts == [] && w.saves == [] && w.attempts == []
    requires ValidIdentity(w.messageId)
    modifies w
    ensures w.Valid() && (w.plan.Valid() ==> last == Done(w.key) && w.finished == Some(w.file))
    ensures documents' == documents - {RetainedUri(directory, w.messageId)}
    ensures others <= caches && forall f :: f in w.slices ==> SliceEntry(w.messageId, f) in caches
    ensures forall f :: f in w.slices ==> SliceEntry(w.messageId, f) !in caches'
    ensures forall e :: e in others && !Owned(e, w.messageId) ==> e in caches'
  {
    last := w.RunDrains(n);
    caches := ListCaches(w, others);
    ReleaseRecognisesRetained(directory, RetainedUri(directory, w.messageId), w.messageId);
    documents', caches' := Release(directory, RetainedUri(directory, w.messageId), documents, caches);
    forall f | f in w.slices
      ensures Owned(SliceEntry(w.messageId, f), w.messageId)
    {
      EqualLengthsAreSafe(w.messageId, w.messageId, SliceRest(f.partNumber, f.attemptId.now, f.attemptId.random));
    }
  }
}
