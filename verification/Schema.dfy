/** The wire-contract schemas of shared/schema.ts: a schema as a term, parsing, and what conforming
    means.

    `Parse` gives the outcome of parsing by cases on the schema; `ParseValue` is the parser with the
    source's loops. Messages and paths of failures are not modelled. A string is its UTF-16 units. */
module Schema {
  import opened Wrappers
  import opened Text

  /** A JavaScript value as the wire carries it. `NonFinite` is NaN or an infinity. */
  datatype Value =
    | Undefined | Null | Bool(b: bool) | Num(n: real) | NonFinite | Str(s: string)
    | Arr(items: seq<Value>) | Obj(fields: map<string, Value>)

  datatype Prop = Prop(key: string, schema: Schema)

  datatype Schema =
    | Unknown
    | String(minLength: nat, maxLength: nat, trim: bool)
    | Number(minimum: Option<real>, maximum: Option<real>, integer: bool)
    | Boolean
    | Literal(expected: Value)
    | Enum(values: set<string>)
    | Array(item: Schema)
    | Object(shape: seq<Prop>, passthrough: bool, exclusive: seq<(string, string)>)
    | Opaque
    | Record(entry: Schema)
    | Union(options: seq<Schema>)
    | Optional(inner: Schema)
    | Nullable(inner: Schema)

  datatype Result = Ok(data: Value) | Fail

  /** `value[key]`: a missing key reads as `undefined`. */
  function Get(fields: map<string, Value>, key: string): Value {
    if key in fields then fields[key] else Undefined
  }

  predicate HasKey(shape: seq<Prop>, key: string) {
    exists i :: 0 <= i < |shape| && shape[i].key == key
  }

  function IndexOf(shape: seq<Prop>, key: string): (i: nat)
    requires HasKey(shape, key)
    ensures i < |shape| && shape[i].key == key
  {
    if shape[0].key == key then 0 else 1 + IndexOf(shape[1..], key)
  }

  /** Exactly one of each pair is defined. */
  predicate PairsExclusive(fields: map<string, Value>, pairs: seq<(string, string)>) {
    forall i :: 0 <= i < |pairs| ==> (Get(fields, pairs[i].0) != Undefined) != (Get(fields, pairs[i].1) != Undefined)
  }

  predicate StringFits(s: string, minLength: nat, maxLength: nat) {
    minLength <= |s| <= maxLength
  }

  predicate NumberFits(n: real, minimum: Option<real>, maximum: Option<real>, integer: bool) {
    && (integer ==> n == n.Floor as real)
    && (minimum.Some? ==> minimum.value <= n) && (maximum.Some? ==> n <= maximum.value)
  }

  /** The outcome of parsing `v`. */
  function Parse(s: Schema, v: Value): Result
    decreases s
  {
    match s
    case Unknown => Ok(v)
    case String(lo, hi, trim) =>
      var parsed := if trim && v.Str? then Str(Trim(v.s)) else v;
      if v.Str? && StringFits(parsed.s, lo, hi) then Ok(parsed) else Fail
    case Number(lo, hi, integer) => if v.Num? && NumberFits(v.n, lo, hi, integer) then Ok(v) else Fail
    case Boolean => if v.Bool? then Ok(v) else Fail
    case Literal(expected) => if v == expected then Ok(v) else Fail
    case Enum(values) => if v.Str? && v.s in values then Ok(v) else Fail
    case Array(item) =>
      if v.Arr? && forall i :: 0 <= i < |v.items| ==> Parse(item, v.items[i]).Ok? then
        Ok(Arr(seq(|v.items|, i requires 0 <= i < |v.items| => Parse(item, v.items[i]).data)))
      else Fail
    case Object(shape, passthrough, exclusive) =>
      if v.Obj? && (forall i :: 0 <= i < |shape| ==> Parse(shape[i].schema, Get(v.fields, shape[i].key)).Ok?)
         && PairsExclusive(v.fields, exclusive)
      then
        Ok(Obj(map k | k in v.fields && (passthrough || HasKey(shape, k)) ::
          if HasKey(shape, k) then
            assert Get(v.fields, shape[IndexOf(shape, k)].key) == v.fields[k];
            Parse(shape[IndexOf(shape, k)].schema, v.fields[k]).data
          else v.fields[k]))
      else Fail
    case Opaque => if v.Obj? then Ok(v) else Fail
    case Record(entry) =>
      if v.Obj? && forall k :: k in v.fields ==> Parse(entry, v.fields[k]).Ok? then
        Ok(Obj(map k | k in v.fields :: Parse(entry, v.fields[k]).data))
      else Fail
    case Union(options) => ParseFirst(options, v)
    case Optional(inner) => if v == Undefined then Ok(Undefined) else Parse(inner, v)
    case Nullable(inner) => if v == Null then Ok(Null) else Parse(inner, v)
  }

  /** The outcome of the first option to accept `v`. */
  function ParseFirst(options: seq<Schema>, v: Value): Result
    decreases options
  {
    if options == [] then Fail
    else if Parse(options[0], v).Ok? then Parse(options[0], v)
    else ParseFirst(options[1..], v)
  }

  /** A trimming string schema sees through white space at the ends, whatever and however much it is: the text
      between is what is measured and what is returned. */
  lemma TrimmedStringParses(a: string, t: string, b: string, lo: nat, hi: nat)
    requires AllSpace(a) && AllSpace(b) && IsTrimmed(t)
    ensures Parse(String(lo, hi, true), Str(a + t + b)) == if lo <= |t| <= hi then Ok(Str(t)) else Fail
    ensures Parse(String(lo, hi, false), Str(a + t + b))
            == if lo <= |a| + |t| + |b| <= hi then Ok(Str(a + t + b)) else Fail
  {
    TrimCuts(a, t, b);
  }

  /** What a schema can be built from: object shapes have one schema for each key, exclusive pairs
      name keys of the shape, and literals are strings, numbers or booleans. */
  predicate WellFormed(s: Schema)
    decreases s
  {
    match s
    case Literal(expected) => expected.Str? || expected.Num? || expected.Bool?
    case Array(item) => WellFormed(item)
    case Object(shape, passthrough, exclusive) =>
      && (forall i :: 0 <= i < |shape| ==> WellFormed(shape[i].schema))
      && (forall i, j :: 0 <= i < j < |shape| ==> shape[i].key != shape[j].key)
      && (forall i :: 0 <= i < |exclusive| ==> HasKey(shape, exclusive[i].0) && HasKey(shape, exclusive[i].1))
    case Record(entry) => WellFormed(entry)
    case Union(options) => forall i :: 0 <= i < |options| ==> WellFormed(options[i])
    case Optional(inner) => WellFormed(inner)
    case Nullable(inner) => WellFormed(inner)
    case _ => true
  }

  predicate UnionFree(s: Schema)
    decreases s
  {
    match s
    case Array(item) => UnionFree(item)
    case Object(shape, passthrough, exclusive) => forall i :: 0 <= i < |shape| ==> UnionFree(shape[i].schema)
    case Record(entry) => UnionFree(entry)
    case Union(options) => false
    case Optional(inner) => UnionFree(inner)
    case Nullable(inner) => UnionFree(inner)
    case _ => true
  }

  /** Schemas whose unions never hand a value to the wrong option: at any depth, each earlier option of a
      union rejects every value conforming to a later one. */
  ghost predicate Settled(s: Schema)
    decreases s
  {
    match s
    case Array(item) => Settled(item)
    case Object(shape, passthrough, exclusive) => forall i :: 0 <= i < |shape| ==> Settled(shape[i].schema)
    case Record(entry) => Settled(entry)
    case Union(options) =>
      && (forall i :: 0 <= i < |options| ==> Settled(options[i]))
      && (forall i, j :: 0 <= j < i < |options| ==> Rejects(options[j], options[i]))
    case Optional(inner) => Settled(inner)
    case Nullable(inner) => Settled(inner)
    case _ => true
  }

  /** `earlier` rejects everything that conforms to `later`. */
  ghost predicate Rejects(earlier: Schema, later: Schema) {
    forall v :: Conforms(later, v) ==> Parse(earlier, v).Fail?
  }

  /** What the type of a parsed value promises, at every depth: in particular an object holds no key
      outside its shape unless the schema passes unknown keys through. */
  predicate Conforms(s: Schema, v: Value)
    decreases s
  {
    match s
    case Unknown => true
    case String(lo, hi, trim) => v.Str? && StringFits(v.s, lo, hi) && (trim ==> IsTrimmed(v.s))
    case Number(lo, hi, integer) => v.Num? && NumberFits(v.n, lo, hi, integer)
    case Boolean => v.Bool?
    case Literal(expected) => v == expected
    case Enum(values) => v.Str? && v.s in values
    case Array(item) => v.Arr? && forall i :: 0 <= i < |v.items| ==> Conforms(item, v.items[i])
    case Object(shape, passthrough, exclusive) =>
      && v.Obj?
      && (!passthrough ==> forall k :: k in v.fields ==> HasKey(shape, k))
      && (forall i :: 0 <= i < |shape| ==> Conforms(shape[i].schema, Get(v.fields, shape[i].key)))
      && PairsExclusive(v.fields, exclusive)
    case Opaque => v.Obj?
    case Record(entry) => v.Obj? && forall k :: k in v.fields ==> Conforms(entry, v.fields[k])
    case Union(options) => exists i :: 0 <= i < |options| && Conforms(options[i], v)
    case Optional(inner) => v == Undefined || Conforms(inner, v)
    case Nullable(inner) => v == Null || Conforms(inner, v)
  }

  // ----- what a successful parse returns -----

  /** A successful parse conforms, and returns `undefined` exactly for `undefined`. */
  ghost predicate SoundAt(s: Schema, v: Value) {
    Parse(s, v).Ok? ==> Conforms(s, Parse(s, v).data) && (Parse(s, v).data == Undefined <==> v == Undefined)
  }

  lemma ShapeKeysUnique(shape: seq<Prop>, i: int)
    requires forall a, b :: 0 <= a < b < |shape| ==> shape[a].key != shape[b].key
    requires 0 <= i < |shape|
    ensures HasKey(shape, shape[i].key) && IndexOf(shape, shape[i].key) == i
  {
  }

  /** A parsed field: the parse of the field read, whether or not the key is there. */
  lemma ParsedField(s: Schema, v: Value, i: int)
    requires s.Object? && WellFormed(s) && Parse(s, v).Ok? && 0 <= i < |s.shape|
    requires SoundAt(s.shape[i].schema, Get(v.fields, s.shape[i].key))
    ensures Parse(s, v).data.Obj?
    ensures Parse(s.shape[i].schema, Get(v.fields, s.shape[i].key)).Ok?
    ensures Get(Parse(s, v).data.fields, s.shape[i].key) == Parse(s.shape[i].schema, Get(v.fields, s.shape[i].key)).data
  {
    ShapeKeysUnique(s.shape, i);
  }

  lemma ObjectIsSound(s: Schema, v: Value)
    requires s.Object? && WellFormed(s) && Parse(s, v).Ok?
    requires forall i :: 0 <= i < |s.shape| ==> SoundAt(s.shape[i].schema, Get(v.fields, s.shape[i].key))
    ensures SoundAt(s, v)
  {
    var d := Parse(s, v).data;
    forall i | 0 <= i < |s.shape|
      ensures Conforms(s.shape[i].schema, Get(d.fields, s.shape[i].key))
    {
      ParsedField(s, v, i);
    }
    forall k | HasKey(s.shape, k)
      ensures Get(d.fields, k) == Undefined <==> Get(v.fields, k) == Undefined
    {
      ParsedField(s, v, IndexOf(s.shape, k));
    }
    assert PairsExclusive(d.fields, s.exclusive);
  }

  /** Every successful parse conforms to its schema, and `undefined` comes out exactly when it went in. */
  lemma {:induction false} ParseIsSound(s: Schema, v: Value)
    requires WellFormed(s)
    ensures SoundAt(s, v)
    decreases s
  {
    match s
    case Array(item) =>
      if v.Arr? {
        forall i | 0 <= i < |v.items|
          ensures SoundAt(item, v.items[i])
        {
          ParseIsSound(item, v.items[i]);
        }
      }
    case Object(shape, passthrough, exclusive) =>
      if Parse(s, v).Ok? {
        forall i | 0 <= i < |shape|
          ensures SoundAt(shape[i].schema, Get(v.fields, shape[i].key))
        {
          ParseIsSound(shape[i].schema, Get(v.fields, shape[i].key));
        }
        ObjectIsSound(s, v);
      }
    case Record(entry) =>
      if v.Obj? {
        forall k | k in v.fields
          ensures SoundAt(entry, v.fields[k])
        {
          ParseIsSound(entry, v.fields[k]);
        }
      }
    case Union(options) =>
      forall i | 0 <= i < |options|
        ensures SoundAt(options[i], v)
      {
        ParseIsSound(options[i], v);
      }
      FirstAccepts(options, v);
    case Optional(inner) => ParseIsSound(inner, v);
    case Nullable(inner) => ParseIsSound(inner, v);
    case _ =>
  }

  /** Option `i` is the first to accept `v`. */
  ghost predicate FirstAt(options: seq<Schema>, v: Value, i: int) {
    && 0 <= i < |options| && Parse(options[i], v).Ok?
    && forall j :: 0 <= j < i ==> Parse(options[j], v).Fail?
  }

  /** A union returns what the first option to accept `v` makes of it. */
  lemma {:induction false} FirstIsTaken(options: seq<Schema>, v: Value, i: int)
    requires FirstAt(options, v, i)
    ensures ParseFirst(options, v) == Parse(options[i], v)
  {
    if i > 0 {
      var rest := options[1..];
      assert rest[i - 1] == options[i];
      assert forall j :: 0 <= j < i - 1 ==> rest[j] == options[j + 1];
      FirstIsTaken(rest, v, i - 1);
    }
  }

  /** A union accepts exactly when some option does. */
  lemma {:induction false} FirstAccepts(options: seq<Schema>, v: Value)
    ensures ParseFirst(options, v).Ok? <==> exists i :: 0 <= i < |options| && Parse(options[i], v).Ok?
    ensures ParseFirst(options, v).Ok? ==>
              exists i :: FirstAt(options, v, i) && ParseFirst(options, v) == Parse(options[i], v)
    decreases options, 1
  {
    if options != [] {
      if Parse(options[0], v).Ok? {
        assert FirstAt(options, v, 0);
      } else {
        FirstAcceptsLater(options, v);
      }
    }
  }

  lemma {:induction false} FirstAcceptsLater(options: seq<Schema>, v: Value)
    requires options != [] && Parse(options[0], v).Fail?
    ensures ParseFirst(options, v).Ok? <==> exists i :: 0 <= i < |options| && Parse(options[i], v).Ok?
    ensures ParseFirst(options, v).Ok? ==>
              exists i :: FirstAt(options, v, i) && ParseFirst(options, v) == Parse(options[i], v)
    decreases options, 0
  {
    var rest := options[1..];
    FirstAccepts(rest, v);
    assert forall i :: 0 <= i < |rest| ==> rest[i] == options[i + 1];
    if ParseFirst(rest, v).Ok? {
      var i :| FirstAt(rest, v, i) && ParseFirst(rest, v) == Parse(rest[i], v);
      assert forall j :: 1 <= j <= i ==> options[j] == rest[j - 1];
      assert FirstAt(options, v, i + 1);
    } else {
      assert forall i :: 1 <= i < |options| ==> options[i] == rest[i - 1];
    }
  }

  // ----- what conforms -----

  lemma ObjectIsAccepted(s: Schema, v: Value)
    requires s.Object? && Conforms(s, v)
    requires forall i :: 0 <= i < |s.shape| ==> Parse(s.shape[i].schema, Get(v.fields, s.shape[i].key)).Ok?
    ensures Parse(s, v).Ok?
  {
  }

  /** Every conforming value parses. */
  lemma {:induction false} ConformingIsAccepted(s: Schema, v: Value)
    requires WellFormed(s) && Conforms(s, v)
    ensures Parse(s, v).Ok?
    decreases s
  {
    match s
    case Array(item) =>
      forall i | 0 <= i < |v.items|
        ensures Parse(item, v.items[i]).Ok?
      {
        ConformingIsAccepted(item, v.items[i]);
      }
    case Object(shape, passthrough, exclusive) =>
      forall i | 0 <= i < |shape|
        ensures Parse(shape[i].schema, Get(v.fields, shape[i].key)).Ok?
      {
        ConformingIsAccepted(shape[i].schema, Get(v.fields, shape[i].key));
      }
      ObjectIsAccepted(s, v);
    case Record(entry) =>
      forall k | k in v.fields
        ensures Parse(entry, v.fields[k]).Ok?
      {
        ConformingIsAccepted(entry, v.fields[k]);
      }
    case Union(options) =>
      var i :| 0 <= i < |options| && Conforms(options[i], v);
      ConformingIsAccepted(options[i], v);
      FirstAccepts(options, v);
    case Optional(inner) =>
      if v != Undefined {
        ConformingIsAccepted(inner, v);
      }
    case Nullable(inner) =>
      if v != Null {
        ConformingIsAccepted(inner, v);
      }
    case _ =>
  }

  lemma ObjectIsFixed(s: Schema, v: Value)
    requires s.Object? && WellFormed(s) && Conforms(s, v)
    requires forall i :: 0 <= i < |s.shape| ==>
               Parse(s.shape[i].schema, Get(v.fields, s.shape[i].key)) == Ok(Get(v.fields, s.shape[i].key))
    ensures Parse(s, v) == Ok(v)
  {
    var d := Parse(s, v).data;
    assert d.fields.Keys == v.fields.Keys;
    forall k | k in v.fields
      ensures d.fields[k] == v.fields[k]
    {
      if HasKey(s.shape, k) {
        assert Get(v.fields, s.shape[IndexOf(s.shape, k)].key) == v.fields[k];
      }
    }
    assert d.fields == v.fields;
  }

  lemma ArrayIsFixed(s: Schema, v: Value)
    requires s.Array? && v.Arr? && forall i :: 0 <= i < |v.items| ==> Parse(s.item, v.items[i]) == Ok(v.items[i])
    ensures Parse(s, v) == Ok(v)
  {
    assert Parse(s, v).data.items == v.items;
  }

  lemma RecordIsFixed(s: Schema, v: Value)
    requires s.Record? && v.Obj? && forall k :: k in v.fields ==> Parse(s.entry, v.fields[k]) == Ok(v.fields[k])
    ensures Parse(s, v) == Ok(v)
  {
    assert Parse(s, v).data.fields == v.fields;
  }

  lemma UnionFreeIsSettled(s: Schema)
    requires UnionFree(s)
    ensures Settled(s)
  {
  }

  /** Parsing leaves a value conforming to a settled schema as it is. */
  lemma {:induction false} ConformingIsFixed(s: Schema, v: Value)
    requires WellFormed(s) && Settled(s) && Conforms(s, v)
    ensures Parse(s, v) == Ok(v)
    decreases s
  {
    match s
    case Array(item) =>
      forall i | 0 <= i < |v.items|
        ensures Parse(item, v.items[i]) == Ok(v.items[i])
      {
        ConformingIsFixed(item, v.items[i]);
      }
      ArrayIsFixed(s, v);
    case Object(shape, passthrough, exclusive) =>
      forall i | 0 <= i < |shape|
        ensures Parse(shape[i].schema, Get(v.fields, shape[i].key)) == Ok(Get(v.fields, shape[i].key))
      {
        ConformingIsFixed(shape[i].schema, Get(v.fields, shape[i].key));
      }
      ObjectIsFixed(s, v);
    case Record(entry) =>
      forall k | k in v.fields
        ensures Parse(entry, v.fields[k]) == Ok(v.fields[k])
      {
        ConformingIsFixed(entry, v.fields[k]);
      }
      RecordIsFixed(s, v);
    case Union(options) =>
      var i :| 0 <= i < |options| && Conforms(options[i], v);
      ConformingIsFixed(options[i], v);
      assert forall j :: 0 <= j < i ==> Rejects(options[j], options[i]);
      FirstIsTaken(options, v, i);
    case Optional(inner) =>
      if v != Undefined {
        ConformingIsFixed(inner, v);
      }
    case Nullable(inner) =>
      if v != Null {
        ConformingIsFixed(inner, v);
      }
    case _ =>
  }

  /** For a settled schema, parsing leaves exactly the conforming values as they are. */
  lemma FixedIffConforming(s: Schema, v: Value)
    requires WellFormed(s) && Settled(s)
    ensures Parse(s, v) == Ok(v) <==> Conforms(s, v)
  {
    if Parse(s, v) == Ok(v) {
      FixedConforms(s, v);
    }
    if Conforms(s, v) {
      ConformingIsFixed(s, v);
    }
  }

  lemma FixedConforms(s: Schema, v: Value)
    requires WellFormed(s) && Parse(s, v) == Ok(v)
    ensures Conforms(s, v)
  {
    ParseIsSound(s, v);
    assert SoundAt(s, v);
  }

  /** Parsing is idempotent for settled schemas: a parsed value parses to itself. */
  lemma ParseIsIdempotent(s: Schema, v: Value)
    requires WellFormed(s) && Settled(s) && Parse(s, v).Ok?
    ensures Parse(s, Parse(s, v).data) == Parse(s, v)
  {
    ParseIsSound(s, v);
    ConformingIsFixed(s, Parse(s, v).data);
  }

  /** With unions a parsed value still parses and still conforms. */
  lemma ReparseConforms(s: Schema, v: Value)
    requires WellFormed(s) && Parse(s, v).Ok?
    ensures Parse(s, Parse(s, v).data).Ok? && Conforms(s, Parse(s, Parse(s, v).data).data)
  {
    ParseIsSound(s, v);
    ConformingIsAccepted(s, Parse(s, v).data);
    ParseIsSound(s, Parse(s, v).data);
  }

  /** An object of two unconstrained keys. */
  function TwoKeys(p: string, q: string, exclusive: seq<(string, string)>): Schema {
    Object([Prop(p, Unknown), Prop(q, Unknown)], false, exclusive)
  }

  lemma TwoKeysShape(p: string, q: string, exclusive: seq<(string, string)>, k: string)
    ensures HasKey(TwoKeys(p, q, exclusive).shape, k) <==> k == p || k == q
  {
    var shape := TwoKeys(p, q, exclusive).shape;
    assert shape[0].key == p && shape[1].key == q;
  }

  lemma TwoKeysField(p: string, q: string, exclusive: seq<(string, string)>, k: string, v: Value)
    requires k == p || k == q
    ensures HasKey(TwoKeys(p, q, exclusive).shape, k)
    ensures Parse(TwoKeys(p, q, exclusive).shape[IndexOf(TwoKeys(p, q, exclusive).shape, k)].schema, v) == Ok(v)
  {
    TwoKeysShape(p, q, exclusive, k);
    var shape := TwoKeys(p, q, exclusive).shape;
    assert shape[IndexOf(shape, k)].schema == Unknown;
  }

  lemma TwoKeysParse(p: string, q: string, exclusive: seq<(string, string)>, fields: map<string, Value>)
    requires p != q
    ensures Parse(TwoKeys(p, q, exclusive), Obj(fields))
            == if PairsExclusive(fields, exclusive) then
                 Ok(Obj(map k | k in fields && (k == p || k == q) :: fields[k]))
               else Fail
  {
    var s := TwoKeys(p, q, exclusive);
    var r := Parse(s, Obj(fields));
    forall i | 0 <= i < |s.shape|
      ensures Parse(s.shape[i].schema, Get(fields, s.shape[i].key)).Ok?
    {
      assert s.shape[i].schema == Unknown;
    }
    if PairsExclusive(fields, exclusive) {
      forall k
        ensures k in r.data.fields <==> k in fields && (k == p || k == q)
        ensures k in r.data.fields ==> r.data.fields[k] == fields[k]
      {
        TwoKeysKept(p, q, exclusive, fields, k);
      }
      assert r.data.fields == map k | k in fields && (k == p || k == q) :: fields[k];
    }
  }

  lemma TwoKeysKept(p: string, q: string, exclusive: seq<(string, string)>, fields: map<string, Value>, k: string)
    requires Parse(TwoKeys(p, q, exclusive), Obj(fields)).Ok?
    ensures var d := Parse(TwoKeys(p, q, exclusive), Obj(fields)).data;
            && d.Obj? && (k in d.fields <==> k in fields && (k == p || k == q))
            && (k in d.fields ==> d.fields[k] == fields[k])
  {
    TwoKeysShape(p, q, exclusive, k);
    if k in fields && (k == p || k == q) {
      TwoKeysField(p, q, exclusive, k, fields[k]);
    }
  }

  /** The shape of the trouble: the first option rejects a value but accepts, and changes, what the
      second makes of it. */
  lemma UnionOfTwo(first: Schema, second: Schema, v: Value, d: Value, e: Value)
    requires Parse(first, v).Fail? && Parse(second, v) == Ok(d) && Parse(first, d) == Ok(e)
    ensures Parse(Union([first, second]), v) == Ok(d) && Parse(Union([first, second]), d) == Ok(e)
  {
    FirstOfTwo(first, second, v);
    FirstOfTwo(first, second, d);
  }

  lemma FirstOfTwo(first: Schema, second: Schema, v: Value)
    ensures Parse(Union([first, second]), v) == if Parse(first, v).Ok? then Parse(first, v) else Parse(second, v)
  {
    assert [first, second][1..] == [second];
    assert ParseFirst([second], v) == Parse(second, v);
  }

  lemma TwoKeysOfThree(p: string, q: string, r: string, x: Value)
    requires p != q && p != r && q != r && x != Undefined
    ensures Parse(TwoKeys(p, q, [(p, q)]), Obj(map[p := x, q := x, r := x])).Fail?
    ensures Parse(TwoKeys(p, r, []), Obj(map[p := x, q := x, r := x])) == Ok(Obj(map[p := x, r := x]))
  {
    var all := map[p := x, q := x, r := x];
    TwoKeysParse(p, q, [(p, q)], all);
    TwoKeysParse(p, r, [], all);
    assert !PairsExclusive(all, [(p, q)]) by {
      assert [(p, q)][0] == (p, q);
    }
    assert (map k | k in all && (k == p || k == r) :: all[k]) == map[p := x, r := x];
  }

  lemma TwoKeysOfTwo(p: string, q: string, r: string, x: Value)
    requires p != q && p != r && q != r && x != Undefined
    ensures Parse(TwoKeys(p, q, [(p, q)]), Obj(map[p := x, r := x])) == Ok(Obj(map[p := x]))
  {
    var left := map[p := x, r := x];
    TwoKeysParse(p, q, [(p, q)], left);
    assert (map k | k in left && (k == p || k == q) :: left[k]) == map[p := x];
  }

  lemma TwoKeysWellFormed(p: string, q: string, exclusive: seq<(string, string)>)
    requires p != q && (exclusive == [] || exclusive == [(p, q)])
    ensures WellFormed(TwoKeys(p, q, exclusive))
  {
    var shape := TwoKeys(p, q, exclusive).shape;
    assert shape[0].key == p && shape[1].key == q;
  }

  /** But it can change: once a later option has stripped a key, an earlier one may accept what is
      left and strip another. Here the first option wants exactly one of `p` and `q`. */
  lemma UnionsCanReparseDifferently(p: string, q: string, r: string, x: Value)
    requires p != q && p != r && q != r && x != Undefined
    ensures WellFormed(TwoKeys(p, q, [(p, q)])) && WellFormed(TwoKeys(p, r, []))
    ensures var s := Union([TwoKeys(p, q, [(p, q)]), TwoKeys(p, r, [])]);
            && Parse(s, Obj(map[p := x, q := x, r := x])) == Ok(Obj(map[p := x, r := x]))
            && Parse(s, Obj(map[p := x, r := x])) == Ok(Obj(map[p := x]))
  {
    TwoKeysOfThree(p, q, r, x);
    TwoKeysOfTwo(p, q, r, x);
    TwoKeysWellFormed(p, q, [(p, q)]);
    TwoKeysWellFormed(p, r, []);
    UnionOfTwo(TwoKeys(p, q, [(p, q)]), TwoKeys(p, r, []), Obj(map[p := x, q := x, r := x]),
               Obj(map[p := x, r := x]), Obj(map[p := x]));
  }

  // ----- when unions re-parse -----

  /** A union with settled options leaves a value alone exactly when the first option to accept the value
      is one it conforms to. */
  lemma UnionReparse(options: seq<Schema>, v: Value, i: int)
    requires WellFormed(Union(options)) && FirstAt(options, v, i) && Settled(options[i])
    ensures Parse(Union(options), v) == Ok(v) <==> Conforms(options[i], v)
  {
    FirstIsTaken(options, v, i);
    FixedIffConforming(options[i], v);
  }

  /** Parsing leaves every conforming value as it is. */
  ghost predicate Fixes(s: Schema) {
    forall v :: Conforms(s, v) ==> Parse(s, v) == Ok(v)
  }

  /** The first option to accept a value that conforms to some option is one it conforms to: an earlier
      option never takes a later one's value and changes it. */
  ghost predicate FirstConforms(options: seq<Schema>) {
    forall i, j, v :: 0 <= i < |options| && Conforms(options[i], v) && FirstAt(options, v, j) ==>
      Conforms(options[j], v)
  }

  /** Whatever its options are, a union of options that fix their values fixes its own exactly when no
      option takes over a value of another. */
  lemma UnionFixesIff(options: seq<Schema>)
    requires WellFormed(Union(options)) && forall i :: 0 <= i < |options| ==> Fixes(options[i])
    ensures Fixes(Union(options)) <==> FirstConforms(options)
  {
    if FirstConforms(options) {
      forall v | Conforms(Union(options), v)
        ensures Parse(Union(options), v) == Ok(v)
      {
        FixedByFirst(options, v);
      }
    } else {
      var i, j, v :| 0 <= i < |options| && Conforms(options[i], v) && FirstAt(options, v, j)
        && !Conforms(options[j], v);
      FirstIsTaken(options, v, j);
      ParseIsSound(options[j], v);
      assert Conforms(Union(options), v);
    }
  }

  lemma FixedByFirst(options: seq<Schema>, v: Value)
    requires WellFormed(Union(options)) && forall i :: 0 <= i < |options| ==> Fixes(options[i])
    requires FirstConforms(options) && Conforms(Union(options), v)
    ensures Parse(Union(options), v) == Ok(v)
  {
    var i :| 0 <= i < |options| && Conforms(options[i], v);
    assert Fixes(options[i]);
    FirstAccepts(options, v);
    var j :| FirstAt(options, v, j) && ParseFirst(options, v) == Parse(options[j], v);
    assert Fixes(options[j]);
  }

  ghost predicate Idempotent(s: Schema) {
    forall v :: Parse(s, v).Ok? ==> Parse(s, Parse(s, v).data) == Parse(s, v)
  }

  /** What one option made of a value, the first option to accept the result keeps. */
  ghost predicate ResultsKept(options: seq<Schema>) {
    forall v, i, j :: FirstAt(options, v, i) && FirstAt(options, Parse(options[i], v).data, j) ==>
      Conforms(options[j], Parse(options[i], v).data)
  }

  /** Re-parsing a union's results changes none exactly when no earlier option takes a result and changes
      it. */
  lemma UnionIdempotentIff(options: seq<Schema>)
    requires WellFormed(Union(options)) && forall i :: 0 <= i < |options| ==> Fixes(options[i])
    ensures Idempotent(Union(options)) <==> ResultsKept(options)
  {
    forall v, i, j | FirstAt(options, v, i) && FirstAt(options, Parse(options[i], v).data, j)
      ensures Parse(Union(options), v) == Parse(options[i], v)
      ensures Parse(Union(options), Parse(options[i], v).data) == Parse(options[i], v)
              <==> Conforms(options[j], Parse(options[i], v).data)
    {
      ResultKeptIff(options, v, i, j);
    }
    forall v | Parse(Union(options), v).Ok?
      ensures exists i, j :: FirstAt(options, v, i) && FirstAt(options, Parse(options[i], v).data, j)
    {
      FirstAccepts(options, v);
      var i :| FirstAt(options, v, i) && ParseFirst(options, v) == Parse(options[i], v);
      ReparseConforms(Union(options), v);
      FirstAccepts(options, Parse(options[i], v).data);
    }
  }

  lemma ResultKeptIff(options: seq<Schema>, v: Value, i: int, j: int)
    requires WellFormed(Union(options)) && FirstAt(options, v, i) && FirstAt(options, Parse(options[i], v).data, j)
    requires Fixes(options[j])
    ensures Parse(Union(options), v) == Parse(options[i], v)
    ensures Parse(Union(options), Parse(options[i], v).data) == Parse(options[i], v)
            <==> Conforms(options[j], Parse(options[i], v).data)
  {
    var d := Parse(options[i], v).data;
    FirstIsTaken(options, v, i);
    FirstIsTaken(options, d, j);
    ParseIsSound(options[j], d);
  }

  // ----- discriminated unions -----

  /** The values a schema built of literals accepts, when it is one. */
  function Tags(s: Schema): Option<set<Value>>
    decreases s
  {
    match s
    case Literal(expected) => Some({expected})
    case Optional(inner) => if Tags(inner).Some? then Some(Tags(inner).value + {Undefined}) else None
    case Nullable(inner) => if Tags(inner).Some? then Some(Tags(inner).value + {Null}) else None
    case _ => None
  }

  predicate TagsDiffer(a: Schema, b: Schema) {
    Tags(a).Some? && Tags(b).Some? && Tags(a).value !! Tags(b).value
  }

  /** Two literals, or two objects with a field of literals, that have no value in common. */
  predicate ToldApart(a: Schema, b: Schema) {
    || TagsDiffer(a, b)
    || (a.Object? && b.Object?
        && exists i, j :: 0 <= i < |a.shape| && 0 <= j < |b.shape| && a.shape[i].key == b.shape[j].key
                          && TagsDiffer(a.shape[i].schema, b.shape[j].schema))
  }

  /** Every union, at any depth, has options told apart by literals. This is a test on the schema alone. */
  predicate Discriminated(s: Schema)
    decreases s
  {
    match s
    case Array(item) => Discriminated(item)
    case Object(shape, passthrough, exclusive) => forall i :: 0 <= i < |shape| ==> Discriminated(shape[i].schema)
    case Record(entry) => Discriminated(entry)
    case Union(options) =>
      && (forall i :: 0 <= i < |options| ==> Discriminated(options[i]))
      && (forall i, j :: 0 <= j < i < |options| ==> ToldApart(options[j], options[i]))
    case Optional(inner) => Discriminated(inner)
    case Nullable(inner) => Discriminated(inner)
    case _ => true
  }

  lemma {:induction false} TagsAccept(s: Schema, v: Value)
    requires Tags(s).Some?
    ensures (Conforms(s, v) <==> v in Tags(s).value) && (Parse(s, v).Ok? <==> v in Tags(s).value)
    decreases s
  {
    match s
    case Optional(inner) => TagsAccept(inner, v);
    case Nullable(inner) => TagsAccept(inner, v);
    case _ =>
  }

  lemma ToldApartRejects(a: Schema, b: Schema)
    requires ToldApart(a, b)
    ensures Rejects(a, b)
  {
    forall v | Conforms(b, v)
      ensures Parse(a, v).Fail?
    {
      if TagsDiffer(a, b) {
        TagsAccept(a, v);
        TagsAccept(b, v);
      } else {
        var i, j :| 0 <= i < |a.shape| && 0 <= j < |b.shape| && a.shape[i].key == b.shape[j].key
                    && TagsDiffer(a.shape[i].schema, b.shape[j].schema);
        TagsAccept(a.shape[i].schema, Get(v.fields, a.shape[i].key));
        TagsAccept(b.shape[j].schema, Get(v.fields, a.shape[i].key));
      }
    }
  }

  /** Discriminated schemas are settled, so parsing with them is idempotent. */
  lemma {:induction false} DiscriminatedIsSettled(s: Schema)
    requires Discriminated(s)
    ensures Settled(s)
    decreases s
  {
    match s
    case Array(item) => DiscriminatedIsSettled(item);
    case Object(shape, passthrough, exclusive) =>
      forall i | 0 <= i < |shape|
        ensures Settled(shape[i].schema)
      {
        DiscriminatedIsSettled(shape[i].schema);
      }
    case Record(entry) => DiscriminatedIsSettled(entry);
    case Union(options) =>
      forall i | 0 <= i < |options|
        ensures Settled(options[i])
      {
        DiscriminatedIsSettled(options[i]);
      }
      forall i, j | 0 <= j < i < |options|
        ensures Rejects(options[j], options[i])
      {
        ToldApartRejects(options[j], options[i]);
      }
    case Optional(inner) => DiscriminatedIsSettled(inner);
    case Nullable(inner) => DiscriminatedIsSettled(inner);
    case _ =>
  }
}
