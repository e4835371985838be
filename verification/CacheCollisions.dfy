/** What becomes of the attachment cache when two keys hash to one path: mobile/src/attachmentCache.ts. */
module CacheCollisions {
  import opened Wrappers
  import opened CachePruning
  import opened AttachmentCache

  /** Some other entry names the file of `entry`, which is there, and holds other bytes by rights. */
  ghost predicate Clobbered(n: Index, e: Disk, remembered: Copies, entry: Entry, source: seq<Byte>) {
    exists k :: k in n && k != entry.key && n[k].path == entry.path && entry.path in e
                && (k !in remembered || remembered[k].bytes != source)
  }

  ghost predicate HitsRight(n: Index, e: Disk, remembered: Copies) {
    forall k :: k in ViewOf(n, e) ==> k in remembered && ViewOf(n, e)[k] == remembered[k].bytes
  }

  lemma HitOf(m: Index, d: Disk, entry: Entry, source: seq<Byte>, n: Index, e: Disk, remembered: Copies,
              withdrawn: set<string>, k: string)
    requires Sound(m, d, remembered, withdrawn) && k in ViewOf(n, e)
    requires k in m[entry.key := entry] && n[k] == m[entry.key := entry][k] && FilesOf(e, d[entry.path := source])
    ensures n[k].path == entry.path ==> ViewOf(n, e)[k] == source
    ensures n[k].path != entry.path ==> k != entry.key && k in remembered && ViewOf(n, e)[k] == remembered[k].bytes
  {
    if n[k].path != entry.path {
      assert Faithful(m[k], d, remembered);
    }
  }

  /** After an entry is filed and the cache is pruned, every hit returns the bytes last remembered for its
      key exactly when no other entry left names the file just written with other bytes to its name. */
  lemma HitsRightIff(m: Index, d: Disk, entry: Entry, source: seq<Byte>, n: Index, e: Disk, remembered: Copies,
                     withdrawn: set<string>)
    requires Sound(m, d, remembered, withdrawn)
    requires forall k :: k in n ==> k in m[entry.key := entry] && n[k] == m[entry.key := entry][k]
    requires FilesOf(e, d[entry.path := source])
    ensures HitsRight(n, e, remembered[entry.key := Copy(source, true)])
            <==> !Clobbered(n, e, remembered, entry, source)
  {
    forall k | k in ViewOf(n, e)
      ensures n[k].path == entry.path ==> ViewOf(n, e)[k] == source
      ensures n[k].path != entry.path ==> k != entry.key && k in remembered && ViewOf(n, e)[k] == remembered[k].bytes
    {
      HitOf(m, d, entry, source, n, e, remembered, withdrawn, k);
    }
    HitsByPath(n, e, entry, source, remembered);
  }

  lemma HitsByPath(n: Index, e: Disk, entry: Entry, source: seq<Byte>, remembered: Copies)
    requires forall k :: k in ViewOf(n, e) ==>
               if n[k].path == entry.path then ViewOf(n, e)[k] == source
               else k != entry.key && k in remembered && ViewOf(n, e)[k] == remembered[k].bytes
    ensures HitsRight(n, e, remembered[entry.key := Copy(source, true)])
            <==> !Clobbered(n, e, remembered, entry, source)
  {
    if k :| k in n && k != entry.key && n[k].path == entry.path && entry.path in e
            && (k !in remembered || remembered[k].bytes != source) {
      assert k in ViewOf(n, e) && ViewOf(n, e)[k] == source;
    }
  }

  /** Two keys with one path and different bytes: the hit for the first returns the bytes of the second. */
  lemma CollisionServesOther(a: string, b: string, path: string, x: seq<Byte>, y: seq<Byte>, now: int)
    requires a != b && x != y
    ensures var first := Entry(a, None, path, None, |x|, now, now);
            var second := Entry(b, None, path, None, |y|, now, now);
            var index, disk := map[a := first][b := second], map[path := x][path := y];
            a in ViewOf(index, disk) && ViewOf(index, disk)[a] == y
            && !HitsRight(index, disk, map[a := Copy(x, true)][b := Copy(y, true)])
  {
    var first := Entry(a, None, path, None, |x|, now, now);
    var second := Entry(b, None, path, None, |y|, now, now);
    var index, disk := map[a := first][b := second], map[path := x][path := y];
    assert a in ViewOf(index, disk) && ViewOf(index, disk)[a] == y;
  }
}
