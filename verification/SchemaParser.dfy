/** The parser of shared/schema.ts with its loops, proved to return what `Parse` says. */
module SchemaParser {
  import opened Wrappers
  import opened Text
  import opened Schema

  method ParseValue(s: Schema, v: Value) returns (r: Result)
    requires WellFormed(s)
    ensures r == Parse(s, v)
    decreases s, 2
  {
    match s
    case Array(item) => r := ParseArray(s, v);
    case Object(shape, passthrough, exclusive) => r := ParseObject(s, v);
    case Record(entry) => r := ParseRecord(s, v);
    case Union(options) => r := ParseUnion(s, v);
    case Optional(inner) =>
      if v == Undefined {
        r := Ok(Undefined);
      } else {
        r := ParseValue(inner, v);
      }
    case Nullable(inner) =>
      if v == Null {
        r := Ok(Null);
      } else {
        r := ParseValue(inner, v);
      }
    case _ => r := ParseLeaf(s, v);
  }

  method ParseLeaf(s: Schema, v: Value) returns (r: Result)
    requires s.Unknown? || s.String? || s.Number? || s.Boolean? || s.Literal? || s.Enum? || s.Opaque?
    ensures r == Parse(s, v)
  {
    match s
    case Unknown => r := Ok(v);
    case String(lo, hi, trim) =>
      if !v.Str? {
        return Fail;
      }
      var parsed := if trim then Trim(v.s) else v.s;
      r := if |parsed| < lo || |parsed| > hi then Fail else Ok(Str(parsed));
    case Number(lo, hi, integer) =>
      if !v.Num? || (integer && v.n != v.n.Floor as real) {
        return Fail;
      }
      r := if (lo.Some? && v.n < lo.value) || (hi.Some? && v.n > hi.value) then Fail else Ok(v);
    case Boolean => r := if v.Bool? then Ok(v) else Fail;
    case Literal(expected) => r := if v == expected then Ok(v) else Fail;
    case Enum(values) => r := if v.Str? && v.s in values then Ok(v) else Fail;
    case Opaque => r := if v.Obj? then Ok(v) else Fail;
  }

  method ParseArray(s: Schema, v: Value) returns (r: Result)
    requires s.Array? && WellFormed(s)
    ensures r == Parse(s, v)
    decreases s, 0
  {
    if !v.Arr? {
      return Fail;
    }
    var parsed := [];
    for i := 0 to |v.items|
      invariant |parsed| == i
      invariant forall j :: 0 <= j < i ==> Parse(s.item, v.items[j]) == Ok(parsed[j])
    {
      var result := ParseValue(s.item, v.items[i]);
      if result.Fail? {
        return Fail;
      }
      parsed := parsed + [result.data];
    }
    assert Parse(s, v).data.items == parsed;
    return Ok(Arr(parsed));
  }

  /** The keys of the first `i` properties. */
  predicate AmongFirst(shape: seq<Prop>, i: int, key: string) {
    exists j :: 0 <= j < i && j < |shape| && shape[j].key == key
  }

  /** What an object parse has built after `i` properties: the keys, the values of those properties, and
      the values passed through. */
  ghost predicate PartlyParsed(s: Schema, fields: map<string, Value>, i: int, parsed: map<string, Value>)
    requires s.Object?
  {
    KeysParsed(s, fields, i, parsed) && PropsParsed(s.shape, fields, i, parsed)
  }

  /** The keys and the values passed through, which are all but those of the properties. */
  ghost predicate KeysParsed(s: Schema, fields: map<string, Value>, i: int, parsed: map<string, Value>)
    requires s.Object?
  {
    && (forall k :: k in parsed <==> k in fields && (s.passthrough || AmongFirst(s.shape, i, k)))
    && (forall k :: k in parsed && !AmongFirst(s.shape, i, k) ==> parsed[k] == fields[k])
  }

  ghost predicate PropsParsed(shape: seq<Prop>, fields: map<string, Value>, i: int, parsed: map<string, Value>) {
    forall j :: 0 <= j < i && j < |shape| && shape[j].key in fields ==>
      shape[j].key in parsed && Ok(parsed[shape[j].key]) == Parse(shape[j].schema, fields[shape[j].key])
  }

  lemma AmongNext(shape: seq<Prop>, i: int, k: string)
    requires 0 <= i < |shape|
    ensures AmongFirst(shape, i + 1, k) <==> AmongFirst(shape, i, k) || k == shape[i].key
  {
    if k == shape[i].key {
      assert shape[i].key == k;
    }
  }

  lemma PropsNext(shape: seq<Prop>, fields: map<string, Value>, i: int, parsed: map<string, Value>, data: Value)
    requires 0 <= i < |shape| && PropsParsed(shape, fields, i, parsed)
    requires forall a, b :: 0 <= a < b < |shape| ==> shape[a].key != shape[b].key
    requires shape[i].key in fields ==> Parse(shape[i].schema, fields[shape[i].key]) == Ok(data)
    ensures PropsParsed(shape, fields, i + 1, parsed[shape[i].key := data])
    ensures shape[i].key !in fields ==> PropsParsed(shape, fields, i + 1, parsed)
  {
  }

  lemma KeysNext(s: Schema, fields: map<string, Value>, i: int, parsed: map<string, Value>, parsed': map<string, Value>)
    requires s.Object? && 0 <= i < |s.shape| && KeysParsed(s, fields, i, parsed)
    requires parsed' - {s.shape[i].key} == parsed - {s.shape[i].key}
    requires s.shape[i].key in parsed' <==> s.shape[i].key in fields
    ensures KeysParsed(s, fields, i + 1, parsed')
  {
    var key := s.shape[i].key;
    forall k
      ensures AmongFirst(s.shape, i + 1, k) <==> AmongFirst(s.shape, i, k) || k == key
      ensures k != key ==> (k in parsed' <==> k in parsed) && (k in parsed' ==> parsed'[k] == parsed[k])
    {
      AmongNext(s.shape, i, k);
      assert k != key ==> (k in parsed' <==> k in parsed' - {key}) && (k in parsed <==> k in parsed - {key});
    }
  }

  lemma NextProperty(s: Schema, fields: map<string, Value>, i: int, parsed: map<string, Value>, data: Value)
    requires s.Object? && WellFormed(s) && 0 <= i < |s.shape| && PartlyParsed(s, fields, i, parsed)
    requires Parse(s.shape[i].schema, Get(fields, s.shape[i].key)) == Ok(data)
    ensures PartlyParsed(s, fields, i + 1,
                         if data != Undefined || s.shape[i].key in fields then parsed[s.shape[i].key := data]
                         else parsed)
  {
    var key := s.shape[i].key;
    ParseIsSound(s.shape[i].schema, Get(fields, key));
    PropsNext(s.shape, fields, i, parsed, data);
    KeysNext(s, fields, i, parsed, if data != Undefined || key in fields then parsed[key := data] else parsed);
  }

  /** The first `i` properties parse. */
  ghost predicate PropsOk(shape: seq<Prop>, fields: map<string, Value>, i: int) {
    forall j :: 0 <= j < i && j < |shape| ==> Parse(shape[j].schema, Get(fields, shape[j].key)).Ok?
  }

  /** What an object parse makes of one field that is there. */
  function FieldParsed(shape: seq<Prop>, fields: map<string, Value>, k: string): Result
    requires k in fields
  {
    if HasKey(shape, k) then Parse(shape[IndexOf(shape, k)].schema, fields[k]) else Ok(fields[k])
  }

  lemma FieldOfParse(s: Schema, v: Value, k: string)
    requires s.Object? && v.Obj? && PairsExclusive(v.fields, s.exclusive) && PropsOk(s.shape, v.fields, |s.shape|)
    ensures Parse(s, v).Ok? && Parse(s, v).data.Obj?
    ensures k in Parse(s, v).data.fields <==> k in v.fields && (s.passthrough || HasKey(s.shape, k))
    ensures k in Parse(s, v).data.fields ==> Ok(Parse(s, v).data.fields[k]) == FieldParsed(s.shape, v.fields, k)
  {
    if HasKey(s.shape, k) && k in v.fields {
      var i := IndexOf(s.shape, k);
      assert Parse(s.shape[i].schema, Get(v.fields, s.shape[i].key)).Ok?;
    }
  }

  lemma FieldOfParsed(s: Schema, fields: map<string, Value>, parsed: map<string, Value>, k: string)
    requires s.Object? && PartlyParsed(s, fields, |s.shape|, parsed)
    ensures k in parsed <==> k in fields && (s.passthrough || HasKey(s.shape, k))
    ensures k in parsed ==> Ok(parsed[k]) == FieldParsed(s.shape, fields, k)
  {
    assert HasKey(s.shape, k) <==> AmongFirst(s.shape, |s.shape|, k);
    if HasKey(s.shape, k) && k in fields {
      assert s.shape[IndexOf(s.shape, k)].key == k;
    }
  }

  lemma AllParsed(s: Schema, v: Value, parsed: map<string, Value>)
    requires s.Object? && v.Obj? && PartlyParsed(s, v.fields, |s.shape|, parsed)
             && PairsExclusive(v.fields, s.exclusive)
    requires PropsOk(s.shape, v.fields, |s.shape|)
    ensures Parse(s, v) == Ok(Obj(parsed))
  {
    FieldOfParse(s, v, "");
    var fields := Parse(s, v).data.fields;
    forall k
      ensures k in fields <==> k in parsed
      ensures k in parsed ==> fields[k] == parsed[k]
    {
      FieldOfParse(s, v, k);
      FieldOfParsed(s, v.fields, parsed, k);
    }
    assert fields == parsed;
  }

  method ParseObject(s: Schema, v: Value) returns (r: Result)
    requires s.Object? && WellFormed(s)
    ensures r == Parse(s, v)
    decreases s, 1
  {
    if !v.Obj? {
      return Fail;
    }
    var parsed, ok := ParseShape(s, v.fields);
    if !ok {
      return Fail;
    }
    var exclusive := CheckPairs(v.fields, s.exclusive);
    if !exclusive {
      return Fail;
    }
    AllParsed(s, v, parsed);
    return Ok(Obj(parsed));
  }

  method ParseShape(s: Schema, fields: map<string, Value>) returns (parsed: map<string, Value>, ok: bool)
    requires s.Object? && WellFormed(s)
    ensures ok <==> PropsOk(s.shape, fields, |s.shape|)
    ensures ok ==> PartlyParsed(s, fields, |s.shape|, parsed)
    decreases s, 0
  {
    parsed := if s.passthrough then fields else map[];
    for i := 0 to |s.shape|
      invariant PartlyParsed(s, fields, i, parsed)
      invariant PropsOk(s.shape, fields, i)
    {
      var key := s.shape[i].key;
      var result := ParseValue(s.shape[i].schema, Get(fields, key));
      if result.Fail? {
        return parsed, false;
      }
      NextProperty(s, fields, i, parsed, result.data);
      if result.data != Undefined || key in fields {
        parsed := parsed[key := result.data];
      }
    }
    ok := true;
  }

  method CheckPairs(fields: map<string, Value>, pairs: seq<(string, string)>) returns (exclusive: bool)
    ensures exclusive <==> PairsExclusive(fields, pairs)
  {
    for i := 0 to |pairs|
      invariant forall j :: 0 <= j < i ==>
                  (Get(fields, pairs[j].0) != Undefined) != (Get(fields, pairs[j].1) != Undefined)
    {
      if (Get(fields, pairs[i].0) != Undefined) == (Get(fields, pairs[i].1) != Undefined) {
        return false;
      }
    }
    return true;
  }

  method ParseRecord(s: Schema, v: Value) returns (r: Result)
    requires s.Record? && WellFormed(s)
    ensures r == Parse(s, v)
    decreases s, 1
  {
    if !v.Obj? {
      return Fail;
    }
    var parsed, ok := ParseEntries(s, v.fields);
    if !ok {
      return Fail;
    }
    assert Parse(s, v).data.fields == parsed;
    return Ok(Obj(parsed));
  }

  method ParseEntries(s: Schema, fields: map<string, Value>) returns (parsed: map<string, Value>, ok: bool)
    requires s.Record? && WellFormed(s)
    ensures ok <==> forall k :: k in fields ==> Parse(s.entry, fields[k]).Ok?
    ensures ok ==> parsed.Keys == fields.Keys && forall k :: k in fields ==> Parse(s.entry, fields[k]) == Ok(parsed[k])
    decreases s, 0
  {
    parsed := map[];
    var rest := fields.Keys;
    while rest != {}
      invariant rest !! parsed.Keys && rest + parsed.Keys == fields.Keys
      invariant forall k :: k in parsed ==> Parse(s.entry, fields[k]) == Ok(parsed[k])
    {
      var key :| key in rest;
      var result := ParseValue(s.entry, fields[key]);
      if result.Fail? {
        return parsed, false;
      }
      parsed := parsed[key := result.data];
      rest := rest - {key};
    }
    ok := true;
  }

  method ParseUnion(s: Schema, v: Value) returns (r: Result)
    requires s.Union? && WellFormed(s)
    ensures r == Parse(s, v)
    decreases s, 0
  {
    for i := 0 to |s.options|
      invariant ParseFirst(s.options, v) == ParseFirst(s.options[i..], v)
    {
      r := ParseValue(s.options[i], v);
      assert s.options[i..][1..] == s.options[i + 1..];
      if r.Ok? {
        return;
      }
    }
    return Fail;
  }
}
