/** Reading the attachment cache's index back from its file: `sanitize` of
    mobile/src/attachmentCache.ts. */
module CacheIndexFile {
  import opened Wrappers
  import opened CachePruning
  import opened AttachmentCache

  /** A field of a parsed JSON object. */
  datatype Field = Missing | Text(text: string) | Number(number: int)

  /** One value of the parsed file; `NotAnEntry` is anything that is not an object. */
  datatype Raw =
    | NotAnEntry
    | Raw(key: Field, messageId: Field, path: Field, labelText: Field, size: Field, cachedAtMs: Field,
      lastUsedAtMs: Field)

  /** `Number(field) || 0`; what `Number` makes of a string is the parameter `parse`. */
  function NumberOr0(f: Field, parse: string -> int): int {
    match f
    case Missing => 0
    case Text(t) => parse(t)
    case Number(n) => n
  }

  function TextOrNull(f: Field): Option<string> {
    if f.Text? then Some(f.text) else None
  }

  function SanitizedEntry(r: Raw, parse: string -> int): Option<Entry> {
    if r.NotAnEntry? || !r.key.Text? || !r.path.Text? || r.key.text == "" || r.path.text == "" then None
    else
      var cachedAt := NumberOr0(r.cachedAtMs, parse);
      var lastUsed := NumberOr0(r.lastUsedAtMs, parse);
      Some(Entry(r.key.text, TextOrNull(r.messageId), r.path.text, TextOrNull(r.labelText), NumberOr0(r.size, parse),
                 cachedAt, if lastUsed != 0 then lastUsed else cachedAt))
  }

  /** Numbers the file does not have are 0, and an entry without a last use was last used when it was cached. */
  lemma MissingNumbers(r: Raw, parse: string -> int)
    requires SanitizedEntry(r, parse).Some?
    ensures var e := SanitizedEntry(r, parse).value;
            && (r.size.Missing? ==> e.size == 0) && (r.cachedAtMs.Missing? ==> e.cachedAtMs == 0)
            && (r.lastUsedAtMs.Missing? || r.lastUsedAtMs == Number(0) ==> e.lastUsedAtMs == e.cachedAtMs)
            && (!r.messageId.Text? ==> e.messageId == None) && (!r.labelText.Text? ==> e.labelText == None)
  {
  }

  /** The entries of a parsed file that can be used, a later one replacing an earlier one of its key. */
  function Sanitized(raws: seq<Raw>, parse: string -> int): Index {
    if raws == [] then map[]
    else
      var rest := Sanitized(raws[..|raws| - 1], parse);
      var e := SanitizedEntry(raws[|raws| - 1], parse);
      if e.Some? then rest[e.value.key := e.value] else rest
  }

  method Sanitize(raws: seq<Raw>, parse: string -> int) returns (index: Index)
    ensures index == Sanitized(raws, parse)
  {
    index := map[];
    for i := 0 to |raws|
      invariant index == Sanitized(raws[..i], parse)
    {
      assert raws[..i + 1][..i] == raws[..i];
      var e := SanitizedEntry(raws[i], parse);
      if e.Some? {
        index := index[e.value.key := e.value];
      }
    }
    assert raws[..|raws|] == raws;
  }

  /** Whatever the file holds, the index read from it is filed by key and has no empty key or path. */
  lemma {:induction false} SanitizedIsKeyed(raws: seq<Raw>, parse: string -> int)
    ensures var index := Sanitized(raws, parse);
            Keyed(index) && "" !in index && forall k :: k in index ==> index[k].path != ""
  {
    if raws != [] {
      SanitizedIsKeyed(raws[..|raws| - 1], parse);
    }
  }

  function OptionField(t: Option<string>): Field {
    if t.Some? then Text(t.value) else Missing
  }

  /** An entry as `JSON.stringify` writes it. */
  function Saved(e: Entry): Raw {
    Raw(Text(e.key), OptionField(e.messageId), Text(e.path), OptionField(e.labelText), Number(e.size),
        Number(e.cachedAtMs), Number(e.lastUsedAtMs))
  }

  function SavedAll(s: seq<Entry>): (r: seq<Raw>)
    ensures |r| == |s| && forall i :: 0 <= i < |s| ==> r[i] == Saved(s[i])
  {
    seq(|s|, i requires 0 <= i < |s| => Saved(s[i]))
  }

  /** What a restart makes of an entry: a last use at time 0 reads back as the time of caching. */
  function Reloaded(e: Entry): Entry {
    if e.lastUsedAtMs == 0 then e.(lastUsedAtMs := e.cachedAtMs) else e
  }

  /** What a restart makes of an index: entries without a path are gone. */
  function ReloadedIndex(m: Index): Index {
    map k | k in m && k != "" && m[k].path != "" :: Reloaded(m[k])
  }

  predicate Survives(e: Entry) {
    e.key != "" && e.path != "" && (e.lastUsedAtMs != 0 || e.cachedAtMs == 0)
  }

  lemma SavedEntry(e: Entry, parse: string -> int)
    ensures SanitizedEntry(Saved(e), parse) == if e.key == "" || e.path == "" then None else Some(Reloaded(e))
  {
  }

  lemma SanitizedStep(s: seq<Entry>, parse: string -> int)
    requires s != []
    ensures var m := Sanitized(SavedAll(s[..|s| - 1]), parse);
            var e := SanitizedEntry(Saved(s[|s| - 1]), parse);
            Sanitized(SavedAll(s), parse) == if e.Some? then m[e.value.key := e.value] else m
  {
    assert SavedAll(s)[..|s| - 1] == SavedAll(s[..|s| - 1]);
  }

  /** A written list of entries reads back as its index, reloaded. */
  lemma {:induction false} SavedReadsBack(s: seq<Entry>, parse: string -> int)
    requires DistinctKeys(s)
    ensures Sanitized(SavedAll(s), parse) == ReloadedIndex(Filed(s))
  {
    if s != [] {
      var init, last := s[..|s| - 1], s[|s| - 1];
      SavedReadsBack(init, parse);
      SavedEntry(last, parse);
      SanitizedStep(s, parse);
      FiledContents(init);
      assert last.key !in Filed(init);
      ReloadedWith(Filed(init), last);
    }
  }

  lemma ReloadedWith(m: Index, e: Entry)
    requires e.key !in m
    ensures ReloadedIndex(m[e.key := e])
            == if e.key == "" || e.path == "" then ReloadedIndex(m) else ReloadedIndex(m)[e.key := Reloaded(e)]
  {
  }

  /** Saving an index and reading it back, in any order, gives the reloaded index; and that is the same
      index exactly when no entry would change. */
  lemma RestartKeepsIndex(s: seq<Entry>, index: Index, parse: string -> int)
    requires Keyed(index) && Enumerates(s, index)
    ensures Sanitized(SavedAll(s), parse) == ReloadedIndex(index)
    ensures Sanitized(SavedAll(s), parse) == index <==> forall k :: k in index ==> Survives(index[k])
  {
    SavedReadsBack(s, parse);
    FiledContents(s);
    assert Filed(s) == index;
    ReloadedIsSameIff(index);
  }

  lemma ReloadedIsSameIff(m: Index)
    requires Keyed(m)
    ensures ReloadedIndex(m) == m <==> forall k :: k in m ==> Survives(m[k])
  {
    var r := ReloadedIndex(m);
    if r == m {
      forall k | k in m
        ensures Survives(m[k])
      {
        assert k in r && r[k] == m[k];
      }
    }
  }

  lemma ReloadedIsPart(m: Index)
    ensures PartOf(ReloadedIndex(m), m)
  {
  }

  lemma ReloadedIsSound(m: Index, d: Disk, remembered: Copies, withdrawn: set<string>)
    requires Sound(m, d, remembered, withdrawn)
    ensures Sound(ReloadedIndex(m), d, remembered, withdrawn)
    ensures ViewOf(ReloadedIndex(m), d) == ViewOf(m, d) - (m.Keys - ReloadedIndex(m).Keys)
  {
    ReloadedIsPart(m);
    SoundNarrows(m, d, ReloadedIndex(m), d, remembered, withdrawn);
    ViewNarrows(m, d, ReloadedIndex(m), d);
  }

  /** The process starts again and reads the index it had saved. */
  method Restart(cache: Cache, parse: string -> int)
    requires cache.Valid()
    modifies cache`index
    ensures cache.Valid() && cache.index == ReloadedIndex(old(cache.index))
    ensures cache.View() == old(cache.View()) - (old(cache.index).Keys - cache.index.Keys)
  {
    ReloadedIsSound(cache.index, cache.disk, cache.remembered, cache.withdrawn);
    cache.index := ReadBack(cache.index, parse);
  }

  method ReadBack(saved: Index, parse: string -> int) returns (index: Index)
    requires Keyed(saved)
    ensures index == ReloadedIndex(saved)
  {
    var values := ObjectValues(saved);
    index := Sanitize(SavedAll(values), parse);
    RestartKeepsIndex(values, saved, parse);
  }
}
