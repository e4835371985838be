/** The union schemas of the signaling contract, shared/signaling/schemas.ts. */
module SignalingSchemas {
  import opened Wrappers
  import opened Schema
  import opened Text

  const LEGACY_VERSION := Literal(Num(2.0))
  const CURRENT_VERSION := Literal(Num(3.0))
  const VERSION_FIELD := Union([LEGACY_VERSION, CURRENT_VERSION])

  const ID_FIELD := String(1, 128, true)
  const NEGOTIATION_ID := Optional(String(1, 1024, false))

  const FROM_USER := [Prop("fromUserId", Optional(ID_FIELD))]

  function LegacyFields(version: Schema): seq<Prop> {
    [Prop("version", version), Prop("callId", ID_FIELD)]
  }

  /** A description from before calls named their peers. */
  function Legacy(version: Schema, rest: seq<Prop>): Schema {
    Object(LegacyFields(version) + rest + [Prop("sdp", Opaque)], false, [])
  }

  const CURRENT_FIELDS := [Prop("version", CURRENT_VERSION), Prop("callId", ID_FIELD), Prop("peerId", ID_FIELD),
                           Prop("negotiationId", NEGOTIATION_ID)]

  function Current(rest: seq<Prop>): Schema {
    Object(CURRENT_FIELDS + rest + [Prop("sdp", Opaque)], false, [])
  }

  /** `rtc.offer` and `rtc.answer` from a client. */
  const CLIENT_DESCRIPTION := Union([Legacy(LEGACY_VERSION, []), Current([])])

  /** The same from the server, where a legacy description may omit its version. */
  const SERVER_DESCRIPTION := Union([Legacy(Optional(LEGACY_VERSION), FROM_USER), Current(FROM_USER)])

  /** A version is 2 or 3. */
  lemma VersionsTaken(v: Value)
    ensures Parse(VERSION_FIELD, v) == if v == Num(2.0) || v == Num(3.0) then Ok(v) else Fail
  {
    var options := VERSION_FIELD.options;
    assert options[0] == LEGACY_VERSION && options[1..] == [CURRENT_VERSION] && options[1..][1..] == [];
    assert ParseFirst(options[1..], v) == if v == Num(3.0) then Ok(v) else Fail;
    assert ParseFirst(options, v) == if v == Num(2.0) then Ok(v) else ParseFirst(options[1..], v);
  }

  /** An id is 1 to 128 characters between any white space, which goes. */
  lemma IdsTaken(a: string, t: string, b: string)
    requires AllSpace(a) && AllSpace(b) && IsTrimmed(t)
    ensures Parse(ID_FIELD, Str(a + t + b)) == if 1 <= |t| <= 128 then Ok(Str(t)) else Fail
  {
    TrimmedStringParses(a, t, b, 1, 128);
  }

  /** A negotiation id may be missing, and else is 1 to 1024 characters, kept as they are. */
  lemma NegotiationIdsTaken(v: Value)
    ensures Parse(NEGOTIATION_ID, v)
            == if v == Undefined || (v.Str? && 1 <= |v.s| <= 1024) then Ok(v) else Fail
  {
  }

  /** What a description may hold. */
  predicate DescriptionKey(k: string) {
    k in {"version", "callId", "peerId", "negotiationId", "fromUserId", "sdp"}
  }

  lemma LegacyKeys(version: Schema, rest: seq<Prop>, d: Value)
    requires (rest == [] || rest == FROM_USER) && Conforms(Legacy(version, rest), d)
    ensures d.Obj? && forall k :: k in d.fields ==> DescriptionKey(k)
  {
    forall k | k in d.fields ensures DescriptionKey(k) {
      assert HasKey(Legacy(version, rest).shape, k);
    }
  }

  lemma CurrentKeys(rest: seq<Prop>, d: Value)
    requires (rest == [] || rest == FROM_USER) && Conforms(Current(rest), d)
    ensures d.Obj? && forall k :: k in d.fields ==> DescriptionKey(k)
  {
    forall k | k in d.fields ensures DescriptionKey(k) {
      assert HasKey(Current(rest).shape, k);
    }
  }

  /** A parsed description holds nothing but what the contract names. */
  lemma OtherKeysGo(s: Schema, v: Value)
    requires (s == CLIENT_DESCRIPTION || s == SERVER_DESCRIPTION) && Parse(s, v).Ok?
    ensures Parse(s, v).data.Obj? && forall k :: k in Parse(s, v).data.fields ==> DescriptionKey(k)
  {
    ClientDiscriminates();
    ServerDiscriminates();
    ParseIsSound(s, v);
    var d := Parse(s, v).data;
    var i :| 0 <= i < |s.options| && Conforms(s.options[i], d);
    var client := s == CLIENT_DESCRIPTION;
    var rest := if client then [] else FROM_USER;
    if i == 0 {
      LegacyKeys(if client then LEGACY_VERSION else Optional(LEGACY_VERSION), rest, d);
    } else {
      CurrentKeys(rest, d);
    }
  }

  lemma VersionsDiscriminate()
    ensures WellFormed(VERSION_FIELD) && Discriminated(VERSION_FIELD)
  {
    var options := VERSION_FIELD.options;
    assert options[0] == LEGACY_VERSION && options[1] == CURRENT_VERSION;
    assert TagsDiffer(options[0], options[1]);
  }

  /** Two objects whose first fields differ in their literals make a discriminated union. */
  lemma PairDiscriminates(a: Schema, b: Schema)
    requires a.Object? && b.Object? && WellFormed(a) && WellFormed(b) && Discriminated(a) && Discriminated(b)
    requires |a.shape| > 0 && |b.shape| > 0
    requires a.shape[0].key == b.shape[0].key && TagsDiffer(a.shape[0].schema, b.shape[0].schema)
    ensures WellFormed(Union([a, b])) && Discriminated(Union([a, b]))
  {
    var options := [a, b];
    assert options[0] == a && options[1] == b;
    assert ToldApart(a, b);
    assert forall i :: 0 <= i < |options| ==> options[i] == a || options[i] == b;
  }

  predicate Plain(s: Schema) {
    WellFormed(s) && Discriminated(s)
  }

  /** Plain fields under different keys. */
  ghost predicate PlainShape(shape: seq<Prop>) {
    && (forall i :: 0 <= i < |shape| ==> Plain(shape[i].schema))
    && (forall i, j :: 0 <= i < j < |shape| ==> shape[i].key != shape[j].key)
  }

  lemma PlainObject(shape: seq<Prop>)
    requires PlainShape(shape)
    ensures Plain(Object(shape, false, []))
  {
    assert forall i :: 0 <= i < |shape| ==> Plain(shape[i].schema);
  }

  /** One more plain field, under a key of another length or another first letter. */
  lemma PlainWith(shape: seq<Prop>, field: Prop)
    requires PlainShape(shape) && Plain(field.schema)
    requires field.key != ""
    requires forall i :: 0 <= i < |shape| ==>
               |shape[i].key| != |field.key| || shape[i].key[0] != field.key[0]
    ensures PlainShape(shape + [field])
  {
  }

  lemma LeafPlain()
    ensures Plain(ID_FIELD) && Plain(NEGOTIATION_ID) && Plain(Opaque) && Plain(Optional(ID_FIELD))
    ensures Plain(CURRENT_VERSION) && Plain(LEGACY_VERSION) && Plain(Optional(LEGACY_VERSION))
  {
  }

  lemma LegacyFieldsPlain(version: Schema)
    requires Plain(version)
    ensures PlainShape(LegacyFields(version))
  {
    LeafPlain();
    PlainWith([Prop("version", version)], Prop("callId", ID_FIELD));
    assert [Prop("version", version)] + [Prop("callId", ID_FIELD)] == LegacyFields(version);
  }

  lemma LegacyPlain(version: Schema, rest: seq<Prop>)
    requires Plain(version) && (rest == [] || rest == FROM_USER)
    ensures Plain(Legacy(version, rest))
  {
    LegacyFieldsPlain(version);
    DescriptionPlain(LegacyFields(version), rest);
  }

  lemma DescriptionPlain(fields: seq<Prop>, rest: seq<Prop>)
    requires PlainShape(fields) && (rest == [] || rest == FROM_USER)
    requires forall i :: 0 <= i < |fields| ==> |fields[i].key| != 10 && |fields[i].key| != 3
    ensures Plain(Object(fields + rest + [Prop("sdp", Opaque)], false, []))
  {
    LeafPlain();
    if rest != [] {
      PlainWith(fields, FROM_USER[0]);
    }
    assert fields + [] == fields;
    PlainWith(fields + rest, Prop("sdp", Opaque));
    PlainObject(fields + rest + [Prop("sdp", Opaque)]);
  }

  lemma CurrentFieldsPlain()
    ensures PlainShape(CURRENT_FIELDS)
  {
    LeafPlain();
    var shape := [Prop("version", CURRENT_VERSION)];
    PlainWith(shape, Prop("callId", ID_FIELD));
    shape := shape + [Prop("callId", ID_FIELD)];
    PlainWith(shape, Prop("peerId", ID_FIELD));
    shape := shape + [Prop("peerId", ID_FIELD)];
    PlainWith(shape, Prop("negotiationId", NEGOTIATION_ID));
    assert shape + [Prop("negotiationId", NEGOTIATION_ID)] == CURRENT_FIELDS;
  }

  lemma CurrentPlain(rest: seq<Prop>)
    requires rest == [] || rest == FROM_USER
    ensures Plain(Current(rest))
  {
    CurrentFieldsPlain();
    DescriptionPlain(CURRENT_FIELDS, rest);
  }

  lemma ClientDiscriminates()
    ensures WellFormed(CLIENT_DESCRIPTION) && Discriminated(CLIENT_DESCRIPTION)
  {
    LegacyPlain(LEGACY_VERSION, []);
    CurrentPlain([]);
    PairDiscriminates(Legacy(LEGACY_VERSION, []), Current([]));
  }

  lemma ServerDiscriminates()
    ensures WellFormed(SERVER_DESCRIPTION) && Discriminated(SERVER_DESCRIPTION)
  {
    LegacyPlain(Optional(LEGACY_VERSION), FROM_USER);
    CurrentPlain(FROM_USER);
    PairDiscriminates(Legacy(Optional(LEGACY_VERSION), FROM_USER), Current(FROM_USER));
  }

  /** The unions of the contract are told apart by their versions: a description or a version that was
      parsed parses to itself. */
  lemma DescriptionsReparse(s: Schema, v: Value)
    requires s == CLIENT_DESCRIPTION || s == SERVER_DESCRIPTION || s == VERSION_FIELD
    requires Parse(s, v).Ok?
    ensures Parse(s, Parse(s, v).data) == Parse(s, v)
  {
    VersionsDiscriminate();
    ClientDiscriminates();
    ServerDiscriminates();
    DiscriminatedIsSettled(s);
    ParseIsIdempotent(s, v);
  }
}
