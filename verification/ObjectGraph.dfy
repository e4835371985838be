/** Logged metadata as a graph: plain objects, arrays and errors that may refer to each other in any
    way. See mobile/src/appLogger.ts. */
module ObjectGraph {
  import opened Wrappers

  type Id = nat

  /** A value. `Atom` is a string, number or boolean as logged; `Nothing` is null or undefined. */
  datatype Val = Nothing | Atom(text: string) | Function(name: string) | Ref(id: Id)

  /** What reading a property gives: a getter may throw. */
  datatype Slot = Reads(value: Val) | Throws(message: string)

  datatype Field = Field(key: string, slot: Slot)

  datatype Node =
    | Plain(fields: seq<Field>)
    | List(items: seq<Val>)
    | ErrorNode(name: string, message: string, stack: Option<string>, cause: Option<Val>)

  type Heap = map<Id, Node>

  predicate InHeap(h: Heap, v: Val) {
    v.Ref? ==> v.id in h
  }

  predicate NodeClosed(h: Heap, n: Node) {
    match n
    case Plain(fields) => forall i :: 0 <= i < |fields| ==> fields[i].slot.Reads? ==> InHeap(h, fields[i].slot.value)
    case List(items) => forall i :: 0 <= i < |items| ==> InHeap(h, items[i])
    case ErrorNode(_, _, _, cause) => cause.Some? ==> InHeap(h, cause.value)
  }

  /** Every reference leads to an object. */
  ghost predicate Closed(h: Heap) {
    forall id :: id in h ==> NodeClosed(h, h[id])
  }

  predicate IsError(h: Heap, v: Val) {
    v.Ref? && v.id in h && h[v.id].ErrorNode?
  }

  // ----- chains of causes -----

  /** The error an error names as its cause. */
  function NextCause(h: Heap, id: Id): Option<Id> {
    if id in h && h[id].ErrorNode? && h[id].cause.Some? && IsError(h, h[id].cause.value) then
      Some(h[id].cause.value.id)
    else None
  }

  /** `n` cause links on from `id`. */
  function Follow(h: Heap, id: Id, n: nat): Option<Id>
    decreases n
  {
    if n == 0 then Some(id)
    else if NextCause(h, id).None? then None
    else Follow(h, NextCause(h, id).value, n - 1)
  }

  /** Through causes alone, an error is its own cause. */
  ghost predicate OnCycle(h: Heap, id: Id) {
    exists n: nat :: n >= 1 && Follow(h, id, n) == Some(id)
  }

  /** No error on the chain from `id` is its own cause. */
  ghost predicate ChainIsClean(h: Heap, id: Id) {
    forall n: nat :: Follow(h, id, n).Some? ==> !OnCycle(h, Follow(h, id, n).value)
  }

  lemma {:induction false} FollowOn(h: Heap, id: Id, m: nat, n: nat)
    requires Follow(h, id, m).Some?
    ensures Follow(h, id, m + n) == Follow(h, Follow(h, id, m).value, n)
    decreases m
  {
    if m > 0 {
      FollowOn(h, NextCause(h, id).value, m - 1, n);
    }
  }

  lemma {:induction false} FollowBack(h: Heap, id: Id, m: nat, n: nat)
    requires m <= n && Follow(h, id, n).Some?
    ensures Follow(h, id, m).Some?
    decreases m
  {
    if m > 0 {
      FollowBack(h, NextCause(h, id).value, m - 1, n - 1);
    }
  }

  ghost predicate OnChain(h: Heap, id: Id, n: nat, x: Id) {
    exists i: nat :: i <= n && Follow(h, id, i) == Some(x)
  }

  /** Without a cycle a chain never visits an error twice, so it visits one more with each link. */
  lemma {:induction false} Visited(h: Heap, id: Id, n: nat) returns (ids: set<Id>)
    requires id in h && ChainIsClean(h, id) && Follow(h, id, n).Some?
    ensures ids <= h.Keys && |ids| == n + 1
    ensures forall x :: x in ids <==> OnChain(h, id, n, x)
    decreases n
  {
    if n == 0 {
      ids := {id};
      assert Follow(h, id, 0) == Some(id);
    } else {
      FollowBack(h, id, n - 1, n);
      var before := Visited(h, id, n - 1);
      var last := Follow(h, id, n).value;
      FollowOn(h, id, n - 1, 1);
      if last in before {
        var i: nat :| i <= n - 1 && Follow(h, id, i) == Some(last);
        FollowOn(h, id, i, n - i);
        assert OnCycle(h, last);
        assert false;
      }
      forall x: Id
        ensures OnChain(h, id, n, x) <==> OnChain(h, id, n - 1, x) || x == last
      {
        if x == last {
          assert Follow(h, id, n) == Some(x);
        }
      }
      ids := before + {last};
    }
  }

  lemma SubsetNoLarger(a: set<Id>, b: set<Id>)
    requires a <= b
    ensures |a| <= |b|
  {
    assert b == a + (b - a);
  }

  lemma {:induction false} CycleGoesOn(h: Heap, id: Id, k: nat, n: nat)
    requires k >= 1 && Follow(h, id, k) == Some(id)
    ensures Follow(h, id, n).Some?
    decreases n
  {
    if n <= k {
      FollowBack(h, id, n, k);
    } else {
      CycleGoesOn(h, id, k, n - k);
      FollowOn(h, id, k, n - k);
    }
  }

  lemma CleanChainEnds(h: Heap, id: Id)
    requires id in h && ChainIsClean(h, id)
    ensures Follow(h, id, |h|).None?
  {
    if Follow(h, id, |h|).Some? {
      var ids := Visited(h, id, |h|);
      SubsetNoLarger(ids, h.Keys);
    }
  }

  lemma ChainToCycleGoesOn(h: Heap, id: Id, n: nat, m: nat)
    requires Follow(h, id, n).Some? && OnCycle(h, Follow(h, id, n).value)
    ensures Follow(h, id, m).Some?
  {
    var last := Follow(h, id, n).value;
    var k: nat :| k >= 1 && Follow(h, last, k) == Some(last);
    CycleGoesOn(h, last, k, m);
    FollowOn(h, id, n, m);
    FollowBack(h, id, m, n + m);
  }

  /** Following causes from an error comes to an end exactly when it meets no cycle; and then it has fewer
      links than there are objects. */
  lemma ChainEndsIffClean(h: Heap, id: Id)
    requires id in h
    ensures Follow(h, id, |h|).None? <==> ChainIsClean(h, id)
  {
    if ChainIsClean(h, id) {
      CleanChainEnds(h, id);
    } else {
      var n: nat :| Follow(h, id, n).Some? && OnCycle(h, Follow(h, id, n).value);
      ChainToCycleGoesOn(h, id, n, |h|);
    }
  }

  /** Links from a value to the end of its chain, counting no further than `fuel`. */
  function Links(h: Heap, id: Id, fuel: nat): (n: nat)
    ensures n <= fuel
    decreases fuel
  {
    if fuel == 0 || NextCause(h, id).None? then 0 else 1 + Links(h, NextCause(h, id).value, fuel - 1)
  }

  lemma {:induction false} LinksSettle(h: Heap, id: Id, fuel: nat)
    requires Follow(h, id, fuel).None?
    ensures Links(h, id, fuel + 1) == Links(h, id, fuel)
    decreases fuel
  {
    if NextCause(h, id).Some? {
      LinksSettle(h, NextCause(h, id).value, fuel - 1);
    }
  }

  /** What strictly decreases from an error to its cause. */
  function CauseRank(h: Heap, v: Val): (n: nat)
    ensures n <= |h| + 1
  {
    if IsError(h, v) then 1 + Links(h, v.id, |h|) else 0
  }

  lemma CauseRankDecreases(h: Heap, id: Id)
    requires id in h && ChainIsClean(h, id) && h[id].ErrorNode? && h[id].cause.Some?
    ensures CauseRank(h, h[id].cause.value) < CauseRank(h, Ref(id))
  {
    ChainEndsIffClean(h, id);
    if NextCause(h, id).Some? {
      LinksSettle(h, NextCause(h, id).value, |h| - 1);
    }
  }
}
