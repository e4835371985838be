/** The arithmetic of a multipart upload: cutting a file into numbered parts and adding parts up
    again. See mobile/src/queuedAttachmentUpload.ts and server/src/attachmentMultipart.ts. */
module UploadParts {

  import opened Wrappers

  datatype PartRecord = PartRecord(partNumber: int, etag: string, sizeBytes: int)

  /** The size of an attachment and of each part but the last. */
  datatype Plan = Plan(total: int, partSize: int) {
    predicate Valid() {
      total > 0 && partSize > 0
    }

    /** `Math.ceil(total / partSize)`. */
    function Count(): int
      requires Valid()
    {
      (total + partSize - 1) / partSize
    }

    function Offset(k: int): int {
      (k - 1) * partSize
    }

    function PartLength(k: int): int {
      if partSize <= total - Offset(k) then partSize else total - Offset(k)
    }

    predicate IsPart(k: int)
      requires Valid()
    {
      1 <= k <= Count()
    }
  }

  lemma OffsetStep(p: Plan, k: int)
    ensures p.Offset(k + 1) == p.Offset(k) + p.partSize
  {
  }

  lemma OffsetsIncrease(p: Plan, j: int, k: int)
    requires p.Valid() && j <= k
    ensures p.Offset(j) <= p.Offset(k)
  {
    assert p.Offset(k) - p.Offset(j) == (k - j) * p.partSize;
  }

  /** Rounding up gives exactly the part numbers that start before the end. */
  lemma CountIsCeiling(p: Plan)
    requires p.Valid()
    ensures p.Count() >= 1
    ensures p.Offset(p.Count()) < p.total <= p.Offset(p.Count() + 1)
  {
    var x := p.total + p.partSize - 1;
    assert x == p.partSize * (x / p.partSize) + x % p.partSize;
    assert p.Offset(p.Count() + 1) == p.partSize * p.Count();
    OffsetStep(p, p.Count());
  }

  /** Every numbered part lies inside the file and is not empty. */
  lemma PartInFile(p: Plan, k: int)
    requires p.Valid() && p.IsPart(k)
    ensures 0 <= p.Offset(k) < p.Offset(k) + p.PartLength(k) <= p.total
    ensures k < p.Count() ==> p.PartLength(k) == p.partSize
    ensures k == p.Count() ==> p.Offset(k) + p.PartLength(k) == p.total
  {
    CountIsCeiling(p);
    OffsetsIncrease(p, 1, k);
    OffsetsIncrease(p, k, p.Count());
    OffsetStep(p, k);
    OffsetStep(p, p.Count());
    if k < p.Count() {
      OffsetsIncrease(p, k + 1, p.Count());
    }
  }

  /** Each part starts where the one before it ends. */
  lemma PartsMeet(p: Plan, n: int)
    requires p.Valid() && p.IsPart(n) && n > 1
    ensures p.Offset(n - 1) + p.PartLength(n - 1) == p.Offset(n)
  {
    PartInFile(p, n - 1);
    OffsetStep(p, n - 1);
  }

  /** The numbers 1 to `n`. */
  function PartNumbers(n: int): (s: set<int>)
    ensures forall k :: k in s <==> 1 <= k <= n
    decreases n
  {
    if n <= 0 then {} else PartNumbers(n - 1) + {n}
  }

  // ----- bytes -----

  /** The bytes of part `k`. */
  function Slice(file: seq<Byte>, p: Plan, k: int): (s: seq<Byte>)
    requires p.Valid() && |file| == p.total && p.IsPart(k)
    ensures |s| == p.PartLength(k)
  {
    PartInFile(p, k);
    file[p.Offset(k)..p.Offset(k) + p.PartLength(k)]
  }

  /** Every stored part holds its own slice of the file. */
  ghost predicate SlicesOf(parts: map<int, seq<Byte>>, file: seq<Byte>, p: Plan)
    requires p.Valid() && |file| == p.total
  {
    forall k :: k in parts ==> p.IsPart(k) && parts[k] == Slice(file, p, k)
  }

  ghost predicate HasAll(parts: map<int, seq<Byte>>, n: int) {
    forall k :: 1 <= k <= n ==> k in parts
  }

  /** Parts 1 to `n`, in order of part number. */
  function Concatenated(parts: map<int, seq<Byte>>, n: int): seq<Byte>
    requires forall k :: 1 <= k <= n ==> k in parts
    decreases n
  {
    if n <= 0 then [] else Concatenated(parts, n - 1) + parts[n]
  }

  lemma NextSlice(file: seq<Byte>, offset: int, length: int)
    requires 0 <= offset <= offset + length <= |file|
    ensures file[..offset] + file[offset..offset + length] == file[..offset + length]
  {
  }

  lemma OneMorePart(parts: map<int, seq<Byte>>, file: seq<Byte>, p: Plan, n: int)
    requires p.Valid() && |file| == p.total && n >= 1 && HasAll(parts, n)
    requires 0 <= p.Offset(n) <= p.Offset(n) + p.PartLength(n) <= |file|
    requires parts[n] == file[p.Offset(n)..p.Offset(n) + p.PartLength(n)]
    requires Concatenated(parts, n - 1) == file[..p.Offset(n)]
    ensures Concatenated(parts, n) == file[..p.Offset(n) + p.PartLength(n)]
  {
    NextSlice(file, p.Offset(n), p.PartLength(n));
  }

  lemma {:induction false} SlicesTile(parts: map<int, seq<Byte>>, file: seq<Byte>, p: Plan, n: int)
    requires p.Valid() && |file| == p.total && SlicesOf(parts, file, p)
    requires 1 <= n <= p.Count() && HasAll(parts, n)
    ensures p.Offset(n) + p.PartLength(n) <= |file|
    ensures Concatenated(parts, n) == file[..p.Offset(n) + p.PartLength(n)]
    decreases n
  {
    if n > 1 {
      SlicesTile(parts, file, p, n - 1);
      PartsMeet(p, n);
    } else {
      assert p.Offset(1) == 0;
    }
    PartInFile(p, n);
    OneMorePart(parts, file, p, n);
  }

  /** The complete set of slices, joined in order, is the file. */
  lemma AllSlicesAreFile(parts: map<int, seq<Byte>>, file: seq<Byte>, p: Plan)
    requires p.Valid() && |file| == p.total && SlicesOf(parts, file, p) && HasAll(parts, p.Count())
    ensures Concatenated(parts, p.Count()) == file
  {
    CountIsCeiling(p);
    SlicesTile(parts, file, p, p.Count());
    PartInFile(p, p.Count());
    assert file[..|file|] == file;
  }

  // ----- sizes -----

  function Numbers(parts: seq<PartRecord>): set<int> {
    set r | r in parts :: r.partNumber
  }

  /** `parts.reduce((bytes, part) => bytes + part.sizeBytes, 0)`. */
  function BytesOf(parts: seq<PartRecord>): int {
    if parts == [] then 0 else BytesOf(parts[..|parts| - 1]) + parts[|parts| - 1].sizeBytes
  }

  /** A part list as the store reports it: numbered parts, once each, at their full length. */
  ghost predicate WellFormed(parts: seq<PartRecord>, p: Plan)
    requires p.Valid()
  {
    && (forall i :: 0 <= i < |parts| ==>
          && p.IsPart(parts[i].partNumber) && parts[i].etag != ""
          && parts[i].sizeBytes == p.PartLength(parts[i].partNumber))
    && (forall i, j :: 0 <= i < j < |parts| ==> parts[i].partNumber != parts[j].partNumber)
  }

  /** Bytes covered by those of parts 1 to `n` that are in `nums`. */
  ghost function Covered(nums: set<int>, p: Plan, n: int): int
    decreases n
  {
    if n <= 0 then 0 else Covered(nums, p, n - 1) + if n in nums then p.PartLength(n) else 0
  }

  lemma {:induction false} CoveredAdd(nums: set<int>, p: Plan, k: int, n: int)
    requires k !in nums && 1 <= k
    ensures Covered(nums + {k}, p, n) == Covered(nums, p, n) + if k <= n then p.PartLength(k) else 0
    decreases n
  {
    if n > 0 {
      CoveredAdd(nums, p, k, n - 1);
    }
  }

  lemma {:induction false} CoveredNone(p: Plan, n: int)
    ensures Covered({}, p, n) == 0
    decreases n
  {
    if n > 0 {
      CoveredNone(p, n - 1);
    }
  }

  /** No set of parts covers more than its span, and only the full set covers all of it. */
  lemma {:induction false} CoveredSpan(nums: set<int>, p: Plan, n: int)
    requires p.Valid() && 1 <= n <= p.Count()
    ensures 0 <= Covered(nums, p, n) <= p.Offset(n) + p.PartLength(n)
    ensures Covered(nums, p, n) == p.Offset(n) + p.PartLength(n) <==> forall k :: 1 <= k <= n ==> k in nums
    decreases n
  {
    PartInFile(p, n);
    if n > 1 {
      CoveredSpan(nums, p, n - 1);
      PartInFile(p, n - 1);
      OffsetStep(p, n - 1);
    } else {
      assert Covered(nums, p, 0) == 0;
    }
  }

  lemma {:induction false} BytesAreCovered(parts: seq<PartRecord>, p: Plan)
    requires p.Valid() && WellFormed(parts, p)
    ensures BytesOf(parts) == Covered(Numbers(parts), p, p.Count())
  {
    if parts == [] {
      assert Numbers(parts) == {};
      CoveredNone(p, p.Count());
    } else {
      var init, last := parts[..|parts| - 1], parts[|parts| - 1];
      BytesAreCovered(init, p);
      assert last in parts;
      assert Numbers(parts) == Numbers(init) + {last.partNumber};
      assert last.partNumber !in Numbers(init);
      CoveredAdd(Numbers(init), p, last.partNumber, p.Count());
    }
  }

  /** The bytes of a well-formed part list never exceed the total, and reach it only when every part
      is listed. */
  lemma BytesReachTotal(parts: seq<PartRecord>, p: Plan)
    requires p.Valid() && WellFormed(parts, p)
    ensures 0 <= BytesOf(parts) <= p.total
    ensures BytesOf(parts) == p.total <==> forall k :: 1 <= k <= p.Count() ==> k in Numbers(parts)
  {
    CountIsCeiling(p);
    BytesAreCovered(parts, p);
    CoveredSpan(Numbers(parts), p, p.Count());
    PartInFile(p, p.Count());
  }

  lemma {:induction false} CoveredGrows(fewer: set<int>, more: set<int>, p: Plan, n: int)
    requires p.Valid() && n <= p.Count() && fewer <= more
    ensures Covered(fewer, p, n) <= Covered(more, p, n)
    decreases n
  {
    if n > 0 {
      PartInFile(p, n);
      CoveredGrows(fewer, more, p, n - 1);
    }
  }

  /** A list of more parts covers no fewer bytes, in whatever order they are listed. */
  lemma BytesGrow(fewer: seq<PartRecord>, more: seq<PartRecord>, p: Plan)
    requires p.Valid() && WellFormed(fewer, p) && WellFormed(more, p) && Numbers(fewer) <= Numbers(more)
    ensures BytesOf(fewer) <= BytesOf(more)
  {
    BytesAreCovered(fewer, p);
    BytesAreCovered(more, p);
    CoveredGrows(Numbers(fewer), Numbers(more), p, p.Count());
  }

  lemma AppendPart(parts: seq<PartRecord>, r: PartRecord, p: Plan)
    requires p.Valid() && WellFormed(parts, p)
    requires p.IsPart(r.partNumber) && r.sizeBytes == p.PartLength(r.partNumber) && r.etag != ""
    requires r.partNumber !in Numbers(parts)
    ensures WellFormed(parts + [r], p)
    ensures Numbers(parts + [r]) == Numbers(parts) + {r.partNumber}
    ensures BytesOf(parts + [r]) == BytesOf(parts) + r.sizeBytes
  {
    var longer := parts + [r];
    assert longer[..|longer| - 1] == parts;
    forall i | 0 <= i < |parts|
      ensures longer[i].partNumber != r.partNumber
    {
      assert parts[i] in parts;
    }
    assert r in longer;
  }
}
