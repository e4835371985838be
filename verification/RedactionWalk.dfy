/** When redaction ends, and the walk as mobile/src/appLogger.ts writes it. */
module RedactionWalk {
  import opened Wrappers
  import opened ObjectGraph
  import opened Redaction

  // ----- what a walk looks at -----

  /** The walk looks at `w` when it is at `v`: an item, the cause of an error, or the value of a field whose
      name is not sensitive. */
  ghost predicate Child(h: Heap, v: Val, w: Val) {
    v.Ref? && v.id in h
    && match h[v.id]
       case Plain(fields) =>
         exists i :: 0 <= i < |fields| && fields[i].slot == Reads(w) && !IsSensitive(Some(fields[i].key))
       case List(items) => w in items
       case ErrorNode(_, _, _, cause) => cause == Some(w)
  }

  /** `id` is `n` steps from `v`. */
  ghost predicate Reaches(h: Heap, v: Val, id: Id, n: nat)
    decreases n
  {
    if n == 0 then v == Ref(id) else exists w :: Child(h, v, w) && Reaches(h, w, id, n - 1)
  }

  /** No error that a walk from `v` can get to is, through causes alone, its own cause. */
  ghost predicate Acyclic(h: Heap, v: Val) {
    forall id: Id, n: nat :: Reaches(h, v, id, n) ==> !OnCycle(h, id)
  }

  lemma ChildIsAcyclic(h: Heap, v: Val, w: Val)
    requires Acyclic(h, v) && Child(h, v, w)
    ensures Acyclic(h, w)
  {
    forall id: Id, n: nat | Reaches(h, w, id, n)
      ensures !OnCycle(h, id)
    {
      assert Reaches(h, v, id, n + 1);
    }
  }

  lemma {:induction false} ChainIsReached(h: Heap, id: Id, n: nat)
    requires Follow(h, id, n).Some?
    ensures Reaches(h, Ref(id), Follow(h, id, n).value, n)
    decreases n
  {
    if n > 0 {
      var next := NextCause(h, id).value;
      ChainIsReached(h, next, n - 1);
      assert Child(h, Ref(id), Ref(next));
    }
  }

  lemma AcyclicChainIsClean(h: Heap, id: Id)
    requires Acyclic(h, Ref(id))
    ensures ChainIsClean(h, id)
  {
    forall n: nat | Follow(h, id, n).Some?
      ensures !OnCycle(h, Follow(h, id, n).value)
    {
      ChainIsReached(h, id, n);
    }
  }

  // ----- without a cycle the walk ends -----

  /** Objects not yet visited: the main measure of what is left to do. */
  function Unseen(h: Heap, seen: set<Id>): nat {
    |h.Keys - seen|
  }

  lemma UnseenShrinks(h: Heap, seen: set<Id>, more: set<Id>)
    requires seen <= more
    ensures Unseen(h, more) <= Unseen(h, seen)
    ensures (exists id :: id in h && id !in seen && id in more) ==> Unseen(h, more) < Unseen(h, seen)
  {
    SubsetNoLarger(h.Keys - more, h.Keys - seen);
    if id :| id in h && id !in seen && id in more {
      SubsetNoLarger(h.Keys - more, h.Keys - seen - {id});
    }
  }

  lemma {:induction false} WalkEnds(h: Heap, v: Val, key: Option<string>, seen: set<Id>) returns (fuel: nat)
    requires Closed(h) && InHeap(h, v) && (IsSensitive(key) || Acyclic(h, v))
    ensures SafeValue(h, v, key, seen, fuel).Some?
    decreases Unseen(h, seen), CauseRank(h, v), 0
  {
    fuel := 0;
    if !IsSensitive(key) && v.Ref? {
      assert NodeClosed(h, h[v.id]);
      fuel := NodeEnds(h, v.id, seen);
      fuel := fuel + 1;
    }
  }

  lemma {:induction false} NodeEnds(h: Heap, id: Id, seen: set<Id>) returns (fuel: nat)
    requires Closed(h) && id in h && Acyclic(h, Ref(id))
    ensures SafeNode(h, id, seen, fuel).Some?
    decreases Unseen(h, seen), CauseRank(h, Ref(id)), 0, 0
  {
    fuel := 0;
    assert NodeClosed(h, h[id]);
    match h[id]
    case ErrorNode(name, message, stack, cause) =>
      if cause.Some? {
        AcyclicChainIsClean(h, id);
        CauseRankDecreases(h, id);
        ChildIsAcyclic(h, Ref(id), cause.value);
        fuel := WalkEnds(h, cause.value, None, seen);
      }
    case List(items) =>
      if id !in seen {
        UnseenShrinks(h, seen, seen + {id});
        forall i | 0 <= i < |items|
          ensures Acyclic(h, items[i])
        {
          ChildIsAcyclic(h, Ref(id), items[i]);
        }
        fuel := ItemsEnd(h, items, seen + {id});
      }
    case Plain(fields) =>
      if id !in seen {
        UnseenShrinks(h, seen, seen + {id});
        forall i | 0 <= i < |fields|
          ensures FieldAcyclic(h, fields[i])
        {
          if fields[i].slot.Reads? && !IsSensitive(Some(fields[i].key)) {
            ChildIsAcyclic(h, Ref(id), fields[i].slot.value);
          }
        }
        fuel := FieldsEnd(h, fields, seen + {id});
      }
  }

  ghost predicate FieldAcyclic(h: Heap, field: Field) {
    field.slot.Reads? ==>
      InHeap(h, field.slot.value) && (IsSensitive(Some(field.key)) || Acyclic(h, field.slot.value))
  }

  lemma {:induction false} ItemsEnd(h: Heap, items: seq<Val>, seen: set<Id>) returns (fuel: nat)
    requires Closed(h) && forall i :: 0 <= i < |items| ==> InHeap(h, items[i]) && Acyclic(h, items[i])
    ensures SafeItems(h, items, seen, fuel).Some?
    decreases Unseen(h, seen), |h| + 2, |items|
  {
    fuel := 0;
    if items != [] {
      var init := items[..|items| - 1];
      var m := ItemsEnd(h, init, seen);
      var walked := SafeItems(h, init, seen, m).value;
      UnseenShrinks(h, seen, walked.1);
      var n := WalkEnds(h, items[|items| - 1], None, walked.1);
      fuel := if m <= n then n else m;
      MoreFuelInItems(h, init, seen, m, fuel);
      MoreFuel(h, items[|items| - 1], None, walked.1, n, fuel);
    }
  }

  lemma {:induction false} FieldsEnd(h: Heap, fields: seq<Field>, seen: set<Id>) returns (fuel: nat)
    requires Closed(h) && forall i :: 0 <= i < |fields| ==> FieldAcyclic(h, fields[i])
    ensures SafeFields(h, fields, seen, fuel).Some?
    decreases Unseen(h, seen), |h| + 2, |fields|
  {
    fuel := 0;
    if fields != [] {
      var init := fields[..|fields| - 1];
      var m := FieldsEnd(h, init, seen);
      var walked := SafeFields(h, init, seen, m).value;
      UnseenShrinks(h, seen, walked.1);
      var n := SlotEnds(h, fields[|fields| - 1], walked.1);
      fuel := if m <= n then n else m;
      MoreFuelInFields(h, init, seen, m, fuel);
      MoreFuelInSlot(h, fields[|fields| - 1], walked.1, n, fuel);
    }
  }

  lemma {:induction false} SlotEnds(h: Heap, field: Field, seen: set<Id>) returns (fuel: nat)
    requires Closed(h) && FieldAcyclic(h, field)
    ensures SafeSlot(h, field, seen, fuel).Some?
    decreases Unseen(h, seen), |h| + 2, 0
  {
    fuel := 0;
    if field.slot.Reads? {
      fuel := WalkEnds(h, field.slot.value, Some(field.key), seen);
    }
  }

  // ----- a walk that ends has met no cycle -----

  /** A walk with `seen` behind it is done with `w`: it is an object seen, or an error whose causes, at
      most `n` of them, end in one or in nothing to visit. */
  ghost predicate Covered(h: Heap, seen: set<Id>, w: Val, n: nat)
    decreases n
  {
    w.Ref? ==>
      w.id in h
      && match h[w.id]
         case ErrorNode(_, _, _, cause) => cause.Some? ==> n > 0 && Covered(h, seen, cause.value, n - 1)
         case _ => w.id in seen
  }

  lemma {:induction false} CoveredGrows(h: Heap, seen: set<Id>, more: set<Id>, w: Val, n: nat, m: nat)
    requires Covered(h, seen, w, n) && seen <= more && n <= m
    ensures Covered(h, more, w, m)
    decreases n
  {
    if w.Ref? && h[w.id].ErrorNode? && h[w.id].cause.Some? {
      CoveredGrows(h, seen, more, h[w.id].cause.value, n - 1, m - 1);
    }
  }

  ghost predicate ChildrenCovered(h: Heap, seen: set<Id>, id: Id, n: nat) {
    forall w :: Child(h, Ref(id), w) ==> Covered(h, seen, w, n)
  }

  /** Everything below the objects seen since `from` is done with. */
  ghost predicate Explored(h: Heap, from: set<Id>, seen: set<Id>, n: nat) {
    forall id :: id in seen && id !in from ==> ChildrenCovered(h, seen, id, n)
  }

  lemma ChildrenCoveredGrow(h: Heap, seen: set<Id>, more: set<Id>, id: Id, n: nat, m: nat)
    requires ChildrenCovered(h, seen, id, n) && seen <= more && n <= m
    ensures ChildrenCovered(h, more, id, m)
  {
    forall w | Child(h, Ref(id), w)
      ensures Covered(h, more, w, m)
    {
      CoveredGrows(h, seen, more, w, n, m);
    }
  }

  lemma ExploredJoin(h: Heap, a: set<Id>, b: set<Id>, c: set<Id>, n: nat)
    requires Explored(h, a, b, n) && Explored(h, b, c, n) && b <= c
    ensures Explored(h, a, c, n)
  {
    forall id | id in c && id !in a
      ensures ChildrenCovered(h, c, id, n)
    {
      if id in b {
        ChildrenCoveredGrow(h, b, c, id, n, n);
      }
    }
  }

  lemma ExploredGrow(h: Heap, from: set<Id>, seen: set<Id>, n: nat, m: nat)
    requires Explored(h, from, seen, n) && n <= m
    ensures Explored(h, from, seen, m)
  {
    forall id | id in seen && id !in from
      ensures ChildrenCovered(h, seen, id, m)
    {
      ChildrenCoveredGrow(h, seen, seen, id, n, m);
    }
  }

  lemma {:induction false} WalkCovers(h: Heap, v: Val, key: Option<string>, seen: set<Id>, fuel: nat)
    requires SafeValue(h, v, key, seen, fuel).Some?
    ensures var after := SafeValue(h, v, key, seen, fuel).value.1;
            Explored(h, seen, after, fuel) && (!IsSensitive(key) ==> Covered(h, after, v, fuel))
    decreases fuel, 0
  {
    if !IsSensitive(key) && v.Ref? {
      var after := SafeNode(h, v.id, seen, fuel - 1).value.1;
      NodeCovers(h, v.id, seen, fuel - 1);
      ExploredGrow(h, seen, after, fuel - 1, fuel);
    }
  }

  lemma {:induction false} NodeCovers(h: Heap, id: Id, seen: set<Id>, fuel: nat)
    requires id in h && SafeNode(h, id, seen, fuel).Some?
    ensures var after := SafeNode(h, id, seen, fuel).value.1;
            Explored(h, seen, after, fuel) && Covered(h, after, Ref(id), fuel + 1)
    decreases fuel, 2
  {
    match h[id]
    case ErrorNode(name, message, stack, cause) =>
      if cause.Some? {
        WalkCovers(h, cause.value, None, seen, fuel);
      }
    case List(items) =>
      if id !in seen {
        ItemsCover(h, items, seen + {id}, fuel);
        AddExplored(h, id, seen, SafeItems(h, items, seen + {id}, fuel).value.1, fuel);
      }
    case Plain(fields) =>
      if id !in seen {
        FieldsCover(h, fields, seen + {id}, fuel);
        AddExplored(h, id, seen, SafeFields(h, fields, seen + {id}, fuel).value.1, fuel);
      }
  }

  lemma AddExplored(h: Heap, id: Id, seen: set<Id>, after: set<Id>, n: nat)
    requires Explored(h, seen + {id}, after, n) && ChildrenCovered(h, after, id, n)
    ensures Explored(h, seen, after, n)
  {
  }

  ghost predicate ItemsCovered(h: Heap, seen: set<Id>, items: seq<Val>, n: nat) {
    forall w :: w in items ==> Covered(h, seen, w, n)
  }

  lemma {:induction false} ItemsCover(h: Heap, items: seq<Val>, seen: set<Id>, fuel: nat)
    requires SafeItems(h, items, seen, fuel).Some?
    ensures var after := SafeItems(h, items, seen, fuel).value.1;
            Explored(h, seen, after, fuel) && ItemsCovered(h, after, items, fuel)
    decreases fuel, 1, |items|
  {
    if items != [] {
      var init, last := SafeItemsStep(h, items, seen, fuel);
      ItemsCover(h, items[..|items| - 1], seen, fuel);
      WalkCovers(h, items[|items| - 1], None, init.1, fuel);
      ExploredJoin(h, seen, init.1, last.1, fuel);
      forall w | w in items
        ensures Covered(h, last.1, w, fuel)
      {
        if w in items[..|items| - 1] {
          CoveredGrows(h, init.1, last.1, w, fuel, fuel);
        }
      }
    }
  }

  ghost predicate FieldCovered(h: Heap, seen: set<Id>, field: Field, n: nat) {
    field.slot.Reads? && !IsSensitive(Some(field.key)) ==> Covered(h, seen, field.slot.value, n)
  }

  lemma {:induction false} FieldsCover(h: Heap, fields: seq<Field>, seen: set<Id>, fuel: nat)
    requires SafeFields(h, fields, seen, fuel).Some?
    ensures var after := SafeFields(h, fields, seen, fuel).value.1;
            Explored(h, seen, after, fuel) && forall i :: 0 <= i < |fields| ==> FieldCovered(h, after, fields[i], fuel)
    decreases fuel, 1, |fields|
  {
    if fields != [] {
      var init, last := SafeFieldsStep(h, fields, seen, fuel);
      FieldsCover(h, fields[..|fields| - 1], seen, fuel);
      SlotCovers(h, fields[|fields| - 1], init.1, fuel);
      ExploredJoin(h, seen, init.1, last.1, fuel);
      forall i | 0 <= i < |fields|
        ensures FieldCovered(h, last.1, fields[i], fuel)
      {
        if i < |fields| - 1 {
          assert FieldCovered(h, init.1, fields[..|fields| - 1][i], fuel);
          FieldCoveredGrows(h, init.1, last.1, fields[i], fuel);
        }
      }
    }
  }

  lemma FieldCoveredGrows(h: Heap, seen: set<Id>, more: set<Id>, field: Field, n: nat)
    requires FieldCovered(h, seen, field, n) && seen <= more
    ensures FieldCovered(h, more, field, n)
  {
    if field.slot.Reads? && !IsSensitive(Some(field.key)) {
      CoveredGrows(h, seen, more, field.slot.value, n, n);
    }
  }

  lemma {:induction false} SlotCovers(h: Heap, field: Field, seen: set<Id>, fuel: nat)
    requires SafeSlot(h, field, seen, fuel).Some?
    ensures var after := SafeSlot(h, field, seen, fuel).value.1;
            Explored(h, seen, after, fuel) && FieldCovered(h, after, field, fuel)
    decreases fuel, 1, 0
  {
    if field.slot.Reads? {
      WalkCovers(h, field.slot.value, Some(field.key), seen, fuel);
    }
  }

  /** Everything reached is done with. */
  lemma {:induction false} ReachedIsCovered(h: Heap, seen: set<Id>, n: nat, w: Val, m: nat, id: Id, k: nat)
    returns (m': nat)
    requires Explored(h, {}, seen, n) && Covered(h, seen, w, m) && Reaches(h, w, id, k)
    ensures Covered(h, seen, Ref(id), m')
    decreases k
  {
    if k == 0 {
      m' := m;
    } else {
      var next :| Child(h, w, next) && Reaches(h, next, id, k - 1);
      if h[w.id].ErrorNode? {
        m' := ReachedIsCovered(h, seen, n, next, m - 1, id, k - 1);
      } else {
        assert ChildrenCovered(h, seen, w.id, n);
        m' := ReachedIsCovered(h, seen, n, next, n, id, k - 1);
      }
    }
  }

  lemma {:induction false} CoveredChainEnds(h: Heap, seen: set<Id>, id: Id, n: nat)
    requires Covered(h, seen, Ref(id), n)
    ensures Follow(h, id, n + 1).None?
    decreases n
  {
    if NextCause(h, id).Some? {
      CoveredChainEnds(h, seen, NextCause(h, id).value, n - 1);
    }
  }

  /** Redaction of a value ends exactly when no error it can get to is, through causes alone, its own
      cause. Cycles of any other kind, and cycles behind sensitive names, do no harm. */
  lemma RedactionEndsIff(h: Heap, v: Val)
    requires Closed(h) && InHeap(h, v)
    ensures (exists fuel: nat :: SafeValue(h, v, None, {}, fuel).Some?) <==> Acyclic(h, v)
  {
    if Acyclic(h, v) {
      var fuel := WalkEnds(h, v, None, {});
    }
    forall fuel: nat | SafeValue(h, v, None, {}, fuel).Some?
      ensures Acyclic(h, v)
    {
      EndedIsAcyclic(h, v, fuel);
    }
  }

  lemma EndedIsAcyclic(h: Heap, v: Val, fuel: nat)
    requires SafeValue(h, v, None, {}, fuel).Some?
    ensures Acyclic(h, v)
  {
    WalkCovers(h, v, None, {}, fuel);
    var after := SafeValue(h, v, None, {}, fuel).value.1;
    forall id: Id, n: nat | Reaches(h, v, id, n)
      ensures !OnCycle(h, id)
    {
      var m := ReachedIsCovered(h, after, fuel, v, fuel, id, n);
      CoveredChainEnds(h, after, id, m);
      if k: nat :| k >= 1 && Follow(h, id, k) == Some(id) {
        CycleGoesOn(h, id, k, m + 1);
      }
    }
  }

  /** An error that names itself as its cause is enough. */
  lemma SelfCauseNeverEnds(h: Heap, id: Id, fuel: nat)
    requires id in h && h[id].ErrorNode? && h[id].cause == Some(Ref(id))
    ensures SafeValue(h, Ref(id), None, {}, fuel).None?
  {
    assert Follow(h, id, 1) == Some(id);
    assert OnCycle(h, id) && Reaches(h, Ref(id), id, 0);
    if SafeValue(h, Ref(id), None, {}, fuel).Some? {
      EndedIsAcyclic(h, Ref(id), fuel);
    }
  }

  // ----- the walk as written -----

  /** One call of `redactSensitive`: the graph, and the objects seen so far. `fuel` bounds how deep the rest
      of the walk goes. */
  class Redactor {
    const heap: Heap
    var seen: set<Id>

    constructor (heap: Heap)
      ensures this.heap == heap && seen == {}
    {
      this.heap, seen := heap, {};
    }

    /** `toSafeValue`. */
    method ToSafeValue(value: Val, key: Option<string>, ghost fuel: nat) returns (t: Tree)
      requires SafeValue(heap, value, key, seen, fuel).Some?
      modifies this
      ensures SafeValue(heap, value, key, old(seen), fuel) == Some((t, seen))
      decreases fuel, 0
    {
      if IsSensitive(key) {
        return Redacted;
      }
      match value
      case Nothing => t := Empty;
      case Atom(text) => t := Leaf(text);
      case Function(name) => t := FunctionText(name);
      case Ref(id) =>
        if heap[id].ErrorNode? {
          t := ToSafeError(id, fuel - 1);
          return;
        }
        if id in seen {
          return Circular;
        }
        seen := seen + {id};
        if heap[id].List? {
          var items := MapItems(heap[id].items, fuel - 1);
          t := Items(id, items);
        } else {
          var values := CopyFields(heap[id].fields, fuel - 1);
          t := Fields(id, Names(heap[id].fields), values);
        }
    }

    /** `toSafeError`. */
    method ToSafeError(id: Id, ghost fuel: nat) returns (t: Tree)
      requires id in heap && heap[id].ErrorNode? && SafeNode(heap, id, seen, fuel).Some?
      modifies this
      ensures SafeNode(heap, id, old(seen), fuel) == Some((t, seen))
      decreases fuel, 2
    {
      var e := heap[id];
      if e.cause.None? {
        return SafeError(e.name, e.message, e.stack, None);
      }
      var cause := ToSafeValue(e.cause.value, None, fuel);
      t := SafeError(e.name, e.message, e.stack, Some(cause));
    }

    method MapItems(items: seq<Val>, ghost fuel: nat) returns (ts: seq<Tree>)
      requires SafeItems(heap, items, seen, fuel).Some?
      modifies this
      ensures SafeItems(heap, items, old(seen), fuel) == Some((ts, seen))
      decreases fuel, 1, 1
    {
      ts := [];
      for i := 0 to |items|
        invariant SafeItems(heap, items[..i], old(seen), fuel) == Some((ts, seen))
      {
        NextItem(items, i, old(seen), fuel);
        var t := ToSafeValue(items[i], None, fuel);
        ts := ts + [t];
      }
      assert items[..|items|] == items;
    }

    lemma {:induction false} PrefixEnds(items: seq<Val>, i: int, from: set<Id>, fuel: nat)
      requires 0 <= i <= |items| && SafeItems(heap, items, from, fuel).Some?
      ensures SafeItems(heap, items[..i], from, fuel).Some?
      decreases |items|
    {
      if i == |items| {
        assert items[..i] == items;
      } else {
        PrefixEnds(items[..|items| - 1], i, from, fuel);
        assert items[..|items| - 1][..i] == items[..i];
      }
    }

    lemma NextItem(items: seq<Val>, i: int, from: set<Id>, fuel: nat)
      requires 0 <= i < |items| && SafeItems(heap, items, from, fuel).Some?
      ensures SafeItems(heap, items[..i], from, fuel).Some? && SafeItems(heap, items[..i + 1], from, fuel).Some?
      ensures var done := SafeItems(heap, items[..i], from, fuel).value;
              var next := SafeValue(heap, items[i], None, done.1, fuel);
              next.Some? && SafeItems(heap, items[..i + 1], from, fuel).value == (done.0 + [next.value.0], next.value.1)
    {
      PrefixEnds(items, i + 1, from, fuel);
      assert items[..i + 1][..i] == items[..i];
      var init, last := SafeItemsStep(heap, items[..i + 1], from, fuel);
    }

    method CopyFields(fields: seq<Field>, ghost fuel: nat) returns (ts: seq<Tree>)
      requires SafeFields(heap, fields, seen, fuel).Some?
      modifies this
      ensures SafeFields(heap, fields, old(seen), fuel) == Some((ts, seen))
      decreases fuel, 1, 2
    {
      ts := [];
      for i := 0 to |fields|
        invariant SafeFields(heap, fields[..i], old(seen), fuel) == Some((ts, seen))
      {
        NextField(fields, i, old(seen), fuel);
        var t := CopyField(fields[i], fuel);
        ts := ts + [t];
      }
      assert fields[..|fields|] == fields;
    }

    lemma {:induction false} FieldPrefixEnds(fields: seq<Field>, i: int, from: set<Id>, fuel: nat)
      requires 0 <= i <= |fields| && SafeFields(heap, fields, from, fuel).Some?
      ensures SafeFields(heap, fields[..i], from, fuel).Some?
      decreases |fields|
    {
      if i == |fields| {
        assert fields[..i] == fields;
      } else {
        FieldPrefixEnds(fields[..|fields| - 1], i, from, fuel);
        assert fields[..|fields| - 1][..i] == fields[..i];
      }
    }

    lemma NextField(fields: seq<Field>, i: int, from: set<Id>, fuel: nat)
      requires 0 <= i < |fields| && SafeFields(heap, fields, from, fuel).Some?
      ensures SafeFields(heap, fields[..i], from, fuel).Some? && SafeFields(heap, fields[..i + 1], from, fuel).Some?
      ensures var done := SafeFields(heap, fields[..i], from, fuel).value;
              var next := SafeSlot(heap, fields[i], done.1, fuel);
              next.Some? && SafeFields(heap, fields[..i + 1], from, fuel).value
                == (done.0 + [next.value.0], next.value.1)
    {
      FieldPrefixEnds(fields, i + 1, from, fuel);
      assert fields[..i + 1][..i] == fields[..i];
      var init, last := SafeFieldsStep(heap, fields[..i + 1], from, fuel);
    }

    /** One property: the getter runs before the name is looked at. */
    method CopyField(field: Field, ghost fuel: nat) returns (t: Tree)
      requires SafeSlot(heap, field, seen, fuel).Some?
      modifies this
      ensures SafeSlot(heap, field, old(seen), fuel) == Some((t, seen))
      decreases fuel, 1, 1
    {
      match field.slot
      case Throws(message) => t := Unserializable(message);
      case Reads(value) => t := ToSafeValue(value, Some(field.key), fuel);
    }

    /** `redactSensitive`: a fresh walk from a value. */
    method RedactSensitive(value: Val) returns (t: Tree)
      requires Closed(heap) && InHeap(heap, value) && Acyclic(heap, value)
      modifies this
      ensures exists fuel: nat :: SafeValue(heap, value, None, {}, fuel) == Some((t, seen))
      ensures Shows(heap, t) && t != Redacted && Origins(t) == multiset(seen)
    {
      seen := {};
      ghost var fuel := WalkEnds(heap, value, None, {});
      ExpandedOnce(heap, value, None, {}, fuel);
      SensitiveFieldsAreRedacted(heap, value, None, {}, fuel);
      t := ToSafeValue(value, None, fuel);
      assert seen - {} == seen;
    }
  }
}
