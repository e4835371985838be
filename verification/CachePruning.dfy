/** Keeping the attachment cache inside its bounds: `prune` of mobile/src/attachmentCache.ts. */
module CachePruning {
  import opened Wrappers

  const MAX_BYTES := 64 * 1024 * 1024
  const MAX_AGE_MS := 14 * 24 * 60 * 60 * 1000

  datatype Entry = Entry(key: string, messageId: Option<string>, path: string, labelText: Option<string>,
                         size: int, cachedAtMs: int, lastUsedAtMs: int)

  type Index = map<string, Entry>

  /** Each entry is filed under its own key. */
  ghost predicate Keyed(index: Index) {
    forall k :: k in index ==> index[k].key == k
  }

  ghost predicate SizesValid(index: Index) {
    forall k :: k in index ==> index[k].size >= 0
  }

  predicate Expired(e: Entry, now: int) {
    now - e.lastUsedAtMs >= MAX_AGE_MS
  }

  function SumSizes(s: seq<Entry>): int {
    if s == [] then 0 else SumSizes(s[..|s| - 1]) + s[|s| - 1].size
  }

  ghost predicate DistinctKeys(s: seq<Entry>) {
    forall i, j :: 0 <= i < j < |s| ==> s[i].key != s[j].key
  }

  /** The entries of a list, filed under their keys. */
  function Filed(s: seq<Entry>): Index {
    if s == [] then map[] else Filed(s[..|s| - 1])[s[|s| - 1].key := s[|s| - 1]]
  }

  lemma {:induction false} FiledContents(s: seq<Entry>)
    ensures Keyed(Filed(s))
    ensures forall k :: k in Filed(s) ==> Filed(s)[k] in s
    ensures forall e :: e in s ==> e.key in Filed(s)
    ensures DistinctKeys(s) ==> forall e :: e in s ==> Filed(s)[e.key] == e
  {
    if s != [] {
      var init, last := s[..|s| - 1], s[|s| - 1];
      FiledContents(init);
      assert s == init + [last];
    }
  }

  // ----- total size -----

  ghost function TotalSize(m: Index): int {
    if m == map[] then 0 else var k :| k in m; m[k].size + TotalSize(m - {k})
  }

  lemma {:induction false} TotalSizeWithout(m: Index, k: string)
    requires k in m
    ensures TotalSize(m) == m[k].size + TotalSize(m - {k})
    decreases |m|
  {
    var j :| j in m && TotalSize(m) == m[j].size + TotalSize(m - {j});
    if j != k {
      TotalSizeWithout(m - {j}, k);
      TotalSizeWithout(m - {k}, j);
      assert m - {j} - {k} == m - {k} - {j};
    }
  }

  lemma {:induction false} TotalSizeOfPart(n: Index, m: Index)
    requires SizesValid(m) && forall k :: k in n ==> k in m && n[k].size == m[k].size
    ensures 0 <= TotalSize(n) <= TotalSize(m)
    decreases |m|
  {
    if m == map[] {
      assert n == map[];
    } else {
      var k :| k in m;
      TotalSizeWithout(m, k);
      if k in n {
        TotalSizeWithout(n, k);
        TotalSizeOfPart(n - {k}, m - {k});
      } else {
        TotalSizeOfPart(n, m - {k});
      }
    }
  }

  lemma {:induction false} TotalSizeFiled(s: seq<Entry>)
    requires DistinctKeys(s)
    ensures TotalSize(Filed(s)) == SumSizes(s)
  {
    if s != [] {
      var init, last := s[..|s| - 1], s[|s| - 1];
      FiledContents(init);
      TotalSizeFiled(init);
      TotalSizeWithout(Filed(s), last.key);
      assert last.key !in Filed(init);
      assert Filed(s) - {last.key} == Filed(init);
    }
  }

  ghost predicate IsTotal(m: Index, total: int) {
    total == TotalSize(m)
  }

  /** All the entries together fit in the limit. Said through `IsTotal`, so that a proof unfolds the sum
      only where it asks for it. */
  ghost predicate WithinLimit(m: Index) {
    forall total :: IsTotal(m, total) ==> total <= MAX_BYTES
  }

  lemma WithinLimitIff(m: Index)
    ensures WithinLimit(m) <==> TotalSize(m) <= 67_108_864
  {
    assert IsTotal(m, TotalSize(m));
  }

  /** Part of an index within the limit is within it. */
  lemma PartWithinLimit(n: Index, m: Index)
    requires SizesValid(m) && WithinLimit(m) && forall k :: k in n ==> k in m && n[k].size == m[k].size
    ensures WithinLimit(n)
  {
    WithinLimitIff(m);
    WithinLimitIff(n);
    TotalSizeOfPart(n, m);
  }

  // ----- most recent first -----

  ghost predicate MostRecentFirst(s: seq<Entry>) {
    forall i, j :: 0 <= i < j < |s| ==> s[i].lastUsedAtMs >= s[j].lastUsedAtMs
  }

  /** Put `e` after every entry used no earlier than it. */
  function Insert(e: Entry, s: seq<Entry>): seq<Entry> {
    if s == [] || s[|s| - 1].lastUsedAtMs >= e.lastUsedAtMs then s + [e]
    else Insert(e, s[..|s| - 1]) + [s[|s| - 1]]
  }

  /** `kept.sort((left, right) => right.lastUsedAtMs - left.lastUsedAtMs)`, which is stable. */
  function SortByRecency(s: seq<Entry>): seq<Entry> {
    if s == [] then [] else Insert(s[|s| - 1], SortByRecency(s[..|s| - 1]))
  }

  lemma {:induction false} InsertAdds(e: Entry, s: seq<Entry>)
    ensures multiset(Insert(e, s)) == multiset(s) + multiset{e}
    ensures |Insert(e, s)| == |s| + 1
  {
    if s != [] && s[|s| - 1].lastUsedAtMs < e.lastUsedAtMs {
      InsertAdds(e, s[..|s| - 1]);
      assert s == s[..|s| - 1] + [s[|s| - 1]];
    }
  }

  lemma {:induction false} InsertKeepsOrder(e: Entry, s: seq<Entry>)
    requires MostRecentFirst(s)
    ensures MostRecentFirst(Insert(e, s))
    ensures forall i :: 0 <= i < |Insert(e, s)| ==> Insert(e, s)[i] == e || Insert(e, s)[i] in s
  {
    if s != [] && s[|s| - 1].lastUsedAtMs < e.lastUsedAtMs {
      InsertKeepsOrder(e, s[..|s| - 1]);
    }
  }

  lemma {:induction false} SortSorts(s: seq<Entry>)
    ensures MostRecentFirst(SortByRecency(s))
    ensures multiset(SortByRecency(s)) == multiset(s)
  {
    if s != [] {
      SortSorts(s[..|s| - 1]);
      InsertAdds(s[|s| - 1], SortByRecency(s[..|s| - 1]));
      InsertKeepsOrder(s[|s| - 1], SortByRecency(s[..|s| - 1]));
      assert s == s[..|s| - 1] + [s[|s| - 1]];
    }
  }
}
