/** Redaction of logged metadata: toSafeValue and toSafeError of mobile/src/appLogger.ts. */
module Redaction {
  import opened Wrappers
  import opened Text
  import opened ObjectGraph

  const SENSITIVE_FIELDS: set<string> := {
    "turn_username", "username", "turn_credential", "credential", "password", "pushtoken", "push_token", "token",
    "secret", "authorization", "verificationcode", "verification_code", "recoverycode", "recovery_code", "callid",
    "call_id"}

  predicate IsSensitive(key: Option<string>) {
    key.Some? && Lower(key.value) in SENSITIVE_FIELDS
  }

  /** A field name that must not be logged, in any casing. */
  predicate NamesSecret(key: string) {
    || CasingOf(key, "turn_username") || CasingOf(key, "username") || CasingOf(key, "turn_credential")
    || CasingOf(key, "credential") || CasingOf(key, "password") || CasingOf(key, "pushtoken")
    || CasingOf(key, "push_token") || CasingOf(key, "token") || CasingOf(key, "secret")
    || CasingOf(key, "authorization") || CasingOf(key, "verificationcode") || CasingOf(key, "verification_code")
    || CasingOf(key, "recoverycode") || CasingOf(key, "recovery_code") || CasingOf(key, "callid")
    || CasingOf(key, "call_id")
  }

  lemma NamedInLower(key: string, name: string)
    requires name in SENSITIVE_FIELDS
    ensures Lower(key) == name <==> CasingOf(key, name)
  {
    WrittenSmall(name);
    LowerIsCasing(key, name);
  }

  lemma WrittenSmall(name: string)
    requires name in SENSITIVE_FIELDS
    ensures HasNoCapitals(name)
  {
    if |name| >= 13 {
      assert name in {"turn_username", "turn_credential", "authorization", "verificationcode", "verification_code",
                      "recovery_code"};
    } else if |name| >= 8 {
      assert name in {"username", "credential", "password", "pushtoken", "push_token", "recoverycode"};
    } else {
      assert name in {"token", "secret", "callid", "call_id"};
    }
  }

  /** What is redacted: exactly the fields with one of the sixteen names, in any casing. */
  lemma SensitiveIffNamed(key: string)
    ensures IsSensitive(Some(key)) <==> NamesSecret(key)
  {
    forall name | name in SENSITIVE_FIELDS
      ensures Lower(key) == name <==> CasingOf(key, name)
    {
      NamedInLower(key, name);
    }
  }

  /** The plain copy that is logged. An expanded object remembers which object it copies. */
  datatype Tree =
    | Empty | Leaf(text: string) | FunctionText(name: string)
    | Redacted | Circular | Unserializable(message: string)
    | Items(origin: Id, items: seq<Tree>)
    | Fields(origin: Id, names: seq<string>, values: seq<Tree>)
    | SafeError(name: string, message: string, stack: Option<string>, cause: Option<Tree>)

  /** A copy, and the objects seen once it is made; `None` when the walk goes deeper than its fuel. */
  type Walk = Option<(Tree, set<Id>)>

  /** The copy of a value read under `key`, from a walk at most `fuel` references deep. */
  ghost function SafeValue(h: Heap, v: Val, key: Option<string>, seen: set<Id>, fuel: nat): (r: Walk)
    ensures r.Some? ==> seen <= r.value.1 <= seen + h.Keys
    decreases fuel, 0
  {
    if IsSensitive(key) then Some((Redacted, seen))
    else match v
      case Nothing => Some((Empty, seen))
      case Atom(text) => Some((Leaf(text), seen))
      case Function(name) => Some((FunctionText(name), seen))
      case Ref(id) => if fuel == 0 || id !in h then None else SafeNode(h, id, seen, fuel - 1)
  }

  ghost function SafeNode(h: Heap, id: Id, seen: set<Id>, fuel: nat): (r: Walk)
    requires id in h
    ensures r.Some? ==> seen <= r.value.1 <= seen + h.Keys
    decreases fuel, 2
  {
    match h[id]
    case ErrorNode(name, message, stack, cause) =>
      if cause.None? then Some((SafeError(name, message, stack, None), seen))
      else
        var r := SafeValue(h, cause.value, None, seen, fuel);
        if r.None? then None else Some((SafeError(name, message, stack, Some(r.value.0)), r.value.1))
    case List(items) =>
      if id in seen then Some((Circular, seen))
      else
        var r := SafeItems(h, items, seen + {id}, fuel);
        if r.None? then None else Some((Items(id, r.value.0), r.value.1))
    case Plain(fields) =>
      if id in seen then Some((Circular, seen))
      else
        var r := SafeFields(h, fields, seen + {id}, fuel);
        if r.None? then None else Some((Fields(id, Names(fields), r.value.0), r.value.1))
  }

  function Names(fields: seq<Field>): (names: seq<string>)
    ensures |names| == |fields| && forall i :: 0 <= i < |fields| ==> names[i] == fields[i].key
  {
    seq(|fields|, i requires 0 <= i < |fields| => fields[i].key)
  }

  ghost function SafeItems(h: Heap, items: seq<Val>, seen: set<Id>, fuel: nat): (r: Option<(seq<Tree>, set<Id>)>)
    ensures r.Some? ==> seen <= r.value.1 <= seen + h.Keys && |r.value.0| == |items|
    decreases fuel, 1, |items|
  {
    if items == [] then Some(([], seen))
    else
      var init := SafeItems(h, items[..|items| - 1], seen, fuel);
      if init.None? then None
      else
        var last := SafeValue(h, items[|items| - 1], None, init.value.1, fuel);
        if last.None? then None else Some((init.value.0 + [last.value.0], last.value.1))
  }

  ghost function SafeSlot(h: Heap, field: Field, seen: set<Id>, fuel: nat): (r: Walk)
    ensures r.Some? ==> seen <= r.value.1 <= seen + h.Keys
    decreases fuel, 1, 0
  {
    match field.slot
    case Throws(message) => Some((Unserializable(message), seen))
    case Reads(value) => SafeValue(h, value, Some(field.key), seen, fuel)
  }

  ghost function SafeFields(h: Heap, fields: seq<Field>, seen: set<Id>, fuel: nat): (r: Option<(seq<Tree>, set<Id>)>)
    ensures r.Some? ==> seen <= r.value.1 <= seen + h.Keys && |r.value.0| == |fields|
    decreases fuel, 1, |fields|
  {
    if fields == [] then Some(([], seen))
    else
      var init := SafeFields(h, fields[..|fields| - 1], seen, fuel);
      if init.None? then None
      else
        var last := SafeSlot(h, fields[|fields| - 1], init.value.1, fuel);
        if last.None? then None else Some((init.value.0 + [last.value.0], last.value.1))
  }

  lemma SafeItemsStep(h: Heap, items: seq<Val>, seen: set<Id>, fuel: nat)
    returns (init: (seq<Tree>, set<Id>), last: (Tree, set<Id>))
    requires items != [] && SafeItems(h, items, seen, fuel).Some?
    ensures SafeItems(h, items[..|items| - 1], seen, fuel) == Some(init)
    ensures SafeValue(h, items[|items| - 1], None, init.1, fuel) == Some(last)
    ensures SafeItems(h, items, seen, fuel) == Some((init.0 + [last.0], last.1))
    ensures seen <= init.1 <= last.1 && |init.0| == |items| - 1
  {
    init := SafeItems(h, items[..|items| - 1], seen, fuel).value;
    last := SafeValue(h, items[|items| - 1], None, init.1, fuel).value;
  }

  lemma SafeFieldsStep(h: Heap, fields: seq<Field>, seen: set<Id>, fuel: nat)
    returns (init: (seq<Tree>, set<Id>), last: (Tree, set<Id>))
    requires fields != [] && SafeFields(h, fields, seen, fuel).Some?
    ensures SafeFields(h, fields[..|fields| - 1], seen, fuel) == Some(init)
    ensures SafeSlot(h, fields[|fields| - 1], init.1, fuel) == Some(last)
    ensures SafeFields(h, fields, seen, fuel) == Some((init.0 + [last.0], last.1))
    ensures seen <= init.1 <= last.1 && |init.0| == |fields| - 1
  {
    init := SafeFields(h, fields[..|fields| - 1], seen, fuel).value;
    last := SafeSlot(h, fields[|fields| - 1], init.1, fuel).value;
  }

  // ----- more fuel changes nothing -----

  lemma {:induction false} MoreFuel(h: Heap, v: Val, key: Option<string>, seen: set<Id>, fuel: nat, more: nat)
    requires fuel <= more && SafeValue(h, v, key, seen, fuel).Some?
    ensures SafeValue(h, v, key, seen, more) == SafeValue(h, v, key, seen, fuel)
    decreases fuel, 0
  {
    if !IsSensitive(key) && v.Ref? {
      match h[v.id]
      case ErrorNode(name, message, stack, cause) =>
        if cause.Some? {
          MoreFuel(h, cause.value, None, seen, fuel - 1, more - 1);
        }
      case List(items) =>
        if v.id !in seen {
          MoreFuelInItems(h, items, seen + {v.id}, fuel - 1, more - 1);
        }
      case Plain(fields) =>
        if v.id !in seen {
          MoreFuelInFields(h, fields, seen + {v.id}, fuel - 1, more - 1);
        }
    }
  }

  lemma {:induction false} MoreFuelInItems(h: Heap, items: seq<Val>, seen: set<Id>, fuel: nat, more: nat)
    requires fuel <= more && SafeItems(h, items, seen, fuel).Some?
    ensures SafeItems(h, items, seen, more) == SafeItems(h, items, seen, fuel)
    decreases fuel, 1, |items|
  {
    if items != [] {
      var init, last := SafeItemsStep(h, items, seen, fuel);
      MoreFuelInItems(h, items[..|items| - 1], seen, fuel, more);
      MoreFuel(h, items[|items| - 1], None, init.1, fuel, more);
    }
  }

  lemma {:induction false} MoreFuelInFields(h: Heap, fields: seq<Field>, seen: set<Id>, fuel: nat, more: nat)
    requires fuel <= more && SafeFields(h, fields, seen, fuel).Some?
    ensures SafeFields(h, fields, seen, more) == SafeFields(h, fields, seen, fuel)
    decreases fuel, 1, |fields|
  {
    if fields != [] {
      var init, last := SafeFieldsStep(h, fields, seen, fuel);
      MoreFuelInFields(h, fields[..|fields| - 1], seen, fuel, more);
      MoreFuelInSlot(h, fields[|fields| - 1], init.1, fuel, more);
    }
  }

  lemma {:induction false} MoreFuelInSlot(h: Heap, field: Field, seen: set<Id>, fuel: nat, more: nat)
    requires fuel <= more && SafeSlot(h, field, seen, fuel).Some?
    ensures SafeSlot(h, field, seen, more) == SafeSlot(h, field, seen, fuel)
    decreases fuel, 1, 0
  {
    if field.slot.Reads? {
      MoreFuel(h, field.slot.value, Some(field.key), seen, fuel, more);
    }
  }

  // ----- each object is expanded at most once -----

  /** The objects a copy expands, with how often. */
  ghost function Origins(t: Tree): multiset<Id>
    decreases t
  {
    match t
    case Items(origin, items) => multiset{origin} + OriginsAll(items)
    case Fields(origin, names, values) => multiset{origin} + OriginsAll(values)
    case SafeError(_, _, _, cause) => if cause.Some? then Origins(cause.value) else multiset{}
    case _ => multiset{}
  }

  ghost function OriginsAll(ts: seq<Tree>): multiset<Id>
    decreases ts
  {
    if ts == [] then multiset{} else OriginsAll(ts[..|ts| - 1]) + Origins(ts[|ts| - 1])
  }

  lemma NewThenNewer(seen: set<Id>, a: set<Id>, b: set<Id>)
    requires seen <= a <= b
    ensures multiset(a - seen) + multiset(b - a) == multiset(b - seen)
  {
  }

  lemma FirstThenNewer(seen: set<Id>, id: Id, after: set<Id>)
    requires id !in seen && seen + {id} <= after
    ensures multiset{id} + multiset(after - (seen + {id})) == multiset(after - seen)
  {
    NewThenNewer(seen, seen + {id}, after);
    assert seen + {id} - seen == {id};
  }

  lemma OneMore(t: Tree, parts: seq<Tree>, seen: set<Id>, after: set<Id>)
    requires (t.Items? && t.items == parts) || (t.Fields? && t.values == parts)
    requires t.origin !in seen && seen + {t.origin} <= after
             && OriginsAll(parts) == multiset(after - (seen + {t.origin}))
    ensures Origins(t) == multiset(after - seen)
  {
    FirstThenNewer(seen, t.origin, after);
  }

  lemma OriginsAppend(ts: seq<Tree>, t: Tree)
    ensures OriginsAll(ts + [t]) == OriginsAll(ts) + Origins(t)
  {
    assert (ts + [t])[..|ts|] == ts;
  }

  /** A copy expands exactly the objects newly seen, once each: whatever refers to an object again, or
      back to one around it, becomes the circular marker. */
  lemma {:induction false} ExpandedOnce(h: Heap, v: Val, key: Option<string>, seen: set<Id>, fuel: nat)
    requires SafeValue(h, v, key, seen, fuel).Some?
    ensures var r := SafeValue(h, v, key, seen, fuel).value; Origins(r.0) == multiset(r.1 - seen)
    decreases fuel, 0
  {
    if !IsSensitive(key) && v.Ref? {
      var id := v.id;
      match h[id]
      case ErrorNode(name, message, stack, cause) =>
        if cause.Some? {
          ExpandedOnce(h, cause.value, None, seen, fuel - 1);
        }
      case List(items) =>
        if id !in seen {
          ItemsExpandedOnce(h, items, seen + {id}, fuel - 1);
          var r := SafeItems(h, items, seen + {id}, fuel - 1).value;
          OneMore(Items(id, r.0), r.0, seen, r.1);
        }
      case Plain(fields) =>
        if id !in seen {
          FieldsExpandedOnce(h, fields, seen + {id}, fuel - 1);
          var r := SafeFields(h, fields, seen + {id}, fuel - 1).value;
          OneMore(Fields(id, Names(fields), r.0), r.0, seen, r.1);
        }
    }
  }

  lemma {:induction false} ItemsExpandedOnce(h: Heap, items: seq<Val>, seen: set<Id>, fuel: nat)
    requires SafeItems(h, items, seen, fuel).Some?
    ensures var r := SafeItems(h, items, seen, fuel).value; OriginsAll(r.0) == multiset(r.1 - seen)
    decreases fuel, 1, |items|
  {
    if items != [] {
      var init, last := SafeItemsStep(h, items, seen, fuel);
      ItemsExpandedOnce(h, items[..|items| - 1], seen, fuel);
      ExpandedOnce(h, items[|items| - 1], None, init.1, fuel);
      OriginsAppend(init.0, last.0);
      NewThenNewer(seen, init.1, last.1);
    }
  }

  lemma {:induction false} FieldsExpandedOnce(h: Heap, fields: seq<Field>, seen: set<Id>, fuel: nat)
    requires SafeFields(h, fields, seen, fuel).Some?
    ensures var r := SafeFields(h, fields, seen, fuel).value; OriginsAll(r.0) == multiset(r.1 - seen)
    decreases fuel, 1, |fields|
  {
    if fields != [] {
      var init, last := SafeFieldsStep(h, fields, seen, fuel);
      FieldsExpandedOnce(h, fields[..|fields| - 1], seen, fuel);
      SlotExpandedOnce(h, fields[|fields| - 1], init.1, fuel);
      OriginsAppend(init.0, last.0);
      NewThenNewer(seen, init.1, last.1);
    }
  }

  lemma {:induction false} SlotExpandedOnce(h: Heap, field: Field, seen: set<Id>, fuel: nat)
    requires SafeSlot(h, field, seen, fuel).Some?
    ensures var r := SafeSlot(h, field, seen, fuel).value; Origins(r.0) == multiset(r.1 - seen)
    decreases fuel, 1, 0
  {
    if field.slot.Reads? {
      ExpandedOnce(h, field.slot.value, Some(field.key), seen, fuel);
    }
  }

  // ----- sensitive fields -----

  /** A field's copy: the marker exactly when the name is sensitive and the getter gave a value; a
      getter that throws shows its message, whatever the name. */
  predicate FieldShown(field: Field, t: Tree) {
    && (t == Redacted <==> field.slot.Reads? && NamesSecret(field.key))
    && (field.slot.Throws? ==> t == Unserializable(field.slot.message))
  }

  predicate ItemShown(t: Tree) {
    t != Redacted
  }

  /** The copy follows the graph at every depth, field by field and item by item. */
  ghost predicate Shows(h: Heap, t: Tree)
    decreases t
  {
    match t
    case Items(origin, items) => origin in h && h[origin].List? && |items| == |h[origin].items| && ItemsShow(h, items)
    case Fields(origin, names, values) =>
      origin in h && h[origin].Plain? && names == Names(h[origin].fields) && FieldsShow(h, h[origin].fields, values)
    case SafeError(_, _, _, cause) => cause.Some? ==> Shows(h, cause.value)
    case _ => true
  }

  ghost predicate ItemsShow(h: Heap, items: seq<Tree>)
    decreases items
  {
    items != [] ==>
      ItemsShow(h, items[..|items| - 1]) && ItemShown(items[|items| - 1]) && Shows(h, items[|items| - 1])
  }

  ghost predicate FieldsShow(h: Heap, fields: seq<Field>, values: seq<Tree>)
    decreases values
  {
    && |values| == |fields|
    && (values != [] ==>
          && FieldsShow(h, fields[..|fields| - 1], values[..|values| - 1])
          && FieldShown(fields[|fields| - 1], values[|values| - 1]) && Shows(h, values[|values| - 1]))
  }

  /** In a copied object, every field of the original appears under its name, and every one with a
      sensitive name that could be read is the marker. */
  lemma {:induction false} EveryFieldShown(h: Heap, fields: seq<Field>, values: seq<Tree>, i: int)
    requires FieldsShow(h, fields, values) && 0 <= i < |fields|
    ensures FieldShown(fields[i], values[i]) && Shows(h, values[i])
    decreases values
  {
    if i < |fields| - 1 {
      EveryFieldShown(h, fields[..|fields| - 1], values[..|values| - 1], i);
    }
  }

  lemma {:induction false} SensitiveFieldsAreRedacted(h: Heap, v: Val, key: Option<string>, seen: set<Id>, fuel: nat)
    requires SafeValue(h, v, key, seen, fuel).Some?
    ensures Shows(h, SafeValue(h, v, key, seen, fuel).value.0)
    ensures SafeValue(h, v, key, seen, fuel).value.0 == Redacted <==> IsSensitive(key)
    decreases fuel, 0
  {
    if !IsSensitive(key) && v.Ref? {
      var id := v.id;
      match h[id]
      case ErrorNode(name, message, stack, cause) =>
        if cause.Some? {
          SensitiveFieldsAreRedacted(h, cause.value, None, seen, fuel - 1);
        }
      case List(items) =>
        if id !in seen {
          ItemsAreShown(h, items, seen + {id}, fuel - 1);
        }
      case Plain(fields) =>
        if id !in seen {
          FieldsAreShown(h, fields, seen + {id}, fuel - 1);
        }
    }
  }

  lemma {:induction false} ItemsAreShown(h: Heap, items: seq<Val>, seen: set<Id>, fuel: nat)
    requires SafeItems(h, items, seen, fuel).Some?
    ensures ItemsShow(h, SafeItems(h, items, seen, fuel).value.0)
    decreases fuel, 1, |items|
  {
    if items != [] {
      var init, last := SafeItemsStep(h, items, seen, fuel);
      ItemsAreShown(h, items[..|items| - 1], seen, fuel);
      SensitiveFieldsAreRedacted(h, items[|items| - 1], None, init.1, fuel);
      assert (init.0 + [last.0])[..|init.0|] == init.0;
    }
  }

  lemma {:induction false} FieldsAreShown(h: Heap, fields: seq<Field>, seen: set<Id>, fuel: nat)
    requires SafeFields(h, fields, seen, fuel).Some?
    ensures FieldsShow(h, fields, SafeFields(h, fields, seen, fuel).value.0)
    decreases fuel, 1, |fields|
  {
    if fields != [] {
      var init, last := SafeFieldsStep(h, fields, seen, fuel);
      FieldsAreShown(h, fields[..|fields| - 1], seen, fuel);
      SlotIsShown(h, fields[|fields| - 1], init.1, fuel);
      FieldsShowAppend(h, fields, init.0, last.0);
    }
  }

  lemma {:induction false} SlotIsShown(h: Heap, field: Field, seen: set<Id>, fuel: nat)
    requires SafeSlot(h, field, seen, fuel).Some?
    ensures FieldShown(field, SafeSlot(h, field, seen, fuel).value.0)
            && Shows(h, SafeSlot(h, field, seen, fuel).value.0)
    decreases fuel, 1, 0
  {
    SensitiveIffNamed(field.key);
    if field.slot.Reads? {
      SensitiveFieldsAreRedacted(h, field.slot.value, Some(field.key), seen, fuel);
    }
  }

  lemma FieldsShowAppend(h: Heap, fields: seq<Field>, values: seq<Tree>, t: Tree)
    requires fields != [] && FieldsShow(h, fields[..|fields| - 1], values)
    requires FieldShown(fields[|fields| - 1], t) && Shows(h, t)
    ensures FieldsShow(h, fields, values + [t])
  {
    var all := values + [t];
    assert all[..|all| - 1] == values && all[|all| - 1] == t;
  }

  // ----- the copy does not depend on what sensitive fields hold -----

  predicate SameField(a: Field, b: Field) {
    a == b || (a.key == b.key && IsSensitive(Some(a.key)) && a.slot.Reads? && b.slot.Reads?)
  }

  predicate SameFields(a: seq<Field>, b: seq<Field>) {
    |a| == |b| && forall i :: 0 <= i < |a| ==> SameField(a[i], b[i])
  }

  predicate SameNode(a: Node, b: Node) {
    a == b || (a.Plain? && b.Plain? && SameFields(a.fields, b.fields))
  }

  /** Two graphs that differ only in the values of sensitive fields. */
  ghost predicate SameButSecrets(g: Heap, h: Heap) {
    g.Keys == h.Keys && forall id :: id in g ==> SameNode(g[id], h[id])
  }

  /** Whatever is behind a sensitive name leaves no trace: not in the copy, not in what counts as seen, and
      not in whether the walk ends. */
  lemma {:induction false} SecretsLeaveNoTrace(g: Heap, h: Heap, v: Val, key: Option<string>, seen: set<Id>, fuel: nat)
    requires SameButSecrets(g, h)
    ensures SafeValue(g, v, key, seen, fuel) == SafeValue(h, v, key, seen, fuel)
    decreases fuel, 0
  {
    if !IsSensitive(key) && v.Ref? && fuel > 0 && v.id in g {
      var id := v.id;
      assert SameNode(g[id], h[id]);
      match g[id]
      case ErrorNode(name, message, stack, cause) =>
        if cause.Some? {
          SecretsLeaveNoTrace(g, h, cause.value, None, seen, fuel - 1);
        }
      case List(items) => SecretsLeaveNoTraceInItems(g, h, items, seen + {id}, fuel - 1);
      case Plain(fields) =>
        SecretsLeaveNoTraceInFields(g, h, fields, h[id].fields, seen + {id}, fuel - 1);
        assert Names(fields) == Names(h[id].fields);
    }
  }

  lemma {:induction false} SecretsLeaveNoTraceInItems(g: Heap, h: Heap, items: seq<Val>, seen: set<Id>, fuel: nat)
    requires SameButSecrets(g, h)
    ensures SafeItems(g, items, seen, fuel) == SafeItems(h, items, seen, fuel)
    decreases fuel, 1, |items|
  {
    if items != [] {
      SecretsLeaveNoTraceInItems(g, h, items[..|items| - 1], seen, fuel);
      var init := SafeItems(g, items[..|items| - 1], seen, fuel);
      if init.Some? {
        SecretsLeaveNoTrace(g, h, items[|items| - 1], None, init.value.1, fuel);
      }
    }
  }

  lemma SameFieldsSplit(a: seq<Field>, b: seq<Field>)
    requires SameFields(a, b) && a != []
    ensures SameFields(a[..|a| - 1], b[..|b| - 1]) && SameField(a[|a| - 1], b[|b| - 1])
  {
  }

  lemma {:induction false} SecretsLeaveNoTraceInFields(g: Heap, h: Heap, a: seq<Field>, b: seq<Field>, seen: set<Id>,
                                                       fuel: nat)
    requires SameButSecrets(g, h) && SameFields(a, b)
    ensures SafeFields(g, a, seen, fuel) == SafeFields(h, b, seen, fuel)
    decreases fuel, 1, |a|
  {
    if a != [] {
      SameFieldsSplit(a, b);
      SecretsLeaveNoTraceInFields(g, h, a[..|a| - 1], b[..|b| - 1], seen, fuel);
      var init := SafeFields(g, a[..|a| - 1], seen, fuel);
      if init.Some? {
        SecretsLeaveNoTraceInSlot(g, h, a[|a| - 1], b[|b| - 1], init.value.1, fuel);
      }
    }
  }

  lemma {:induction false} SecretsLeaveNoTraceInSlot(g: Heap, h: Heap, a: Field, b: Field, seen: set<Id>, fuel: nat)
    requires SameButSecrets(g, h) && SameField(a, b)
    ensures SafeSlot(g, a, seen, fuel) == SafeSlot(h, b, seen, fuel)
    decreases fuel, 1, 0
  {
    if a == b && a.slot.Reads? {
      SecretsLeaveNoTrace(g, h, a.slot.value, Some(a.key), seen, fuel);
    }
  }
}
