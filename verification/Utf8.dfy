/** UTF-16 text and its UTF-8 encoding, as the logger of mobile/src/appLogger.ts measures it
    (section 3 of RFC 3629, section 2.2 of RFC 2781). */
module Utf8 {
  import opened Wrappers

  /** One UTF-16 code unit, what `charCodeAt` returns. */
  type Unit = u: int | 0 <= u < 0x10000

  /** A Unicode code point, or a surrogate standing for itself. */
  type Point = c: int | 0 <= c < 0x110000

  predicate IsHigh(u: int) {
    0xD800 <= u <= 0xDBFF
  }

  predicate IsLow(u: int) {
    0xDC00 <= u <= 0xDFFF
  }

  /** Units the first code point of `s` takes: two for a surrogate pair, otherwise one. */
  function FirstLength(s: seq<Unit>): (n: nat)
    requires s != []
    ensures 1 <= n <= |s|
  {
    if |s| >= 2 && IsHigh(s[0]) && IsLow(s[1]) then 2 else 1
  }

  /** The first code point of `s`; a surrogate without its partner stands for itself. */
  function FirstPoint(s: seq<Unit>): Point
    requires s != []
  {
    if FirstLength(s) == 2 then
      var high: int, low: int := s[0], s[1];
      0x10000 + (high - 0xD800) * 0x400 + (low - 0xDC00)
    else s[0]
  }

  function Decode(s: seq<Unit>): seq<Point>
  {
    if s == [] then [] else [FirstPoint(s)] + Decode(s[FirstLength(s)..])
  }

  predicate IsSurrogate(c: int) {
    0xD800 <= c <= 0xDFFF
  }

  /** Surrogates are the high and the low ones, and each alone is written as the three bytes of U+FFFD. */
  lemma SurrogateBytes(c: Point)
    ensures IsSurrogate(c) <==> IsHigh(c) || IsLow(c)
    ensures EncodePoint(c) == EncodePoint(0xFFFD) <==> c == 0xFFFD || 0xD800 <= c < 0xE000
  {
    EncodedPointDecodes(c);
    EncodedPointDecodes(0xFFFD);
  }

  /** What a reader of the bytes is shown for a code point. */
  function Shown(c: Point): Point {
    if IsSurrogate(c) then 0xFFFD else c
  }

  /** The bytes of one code point; a lone surrogate is written as U+FFFD. */
  function EncodePoint(c: Point): seq<Byte>
  {
    if IsSurrogate(c) then [0xEF, 0xBF, 0xBD]
    else if c < 0x80 then [c]
    else if c < 0x800 then [0xC0 + c / 0x40, 0x80 + c % 0x40]
    else if c < 0x10000 then [0xE0 + c / 0x1000, 0x80 + c / 0x40 % 0x40, 0x80 + c % 0x40]
    else [0xF0 + c / 0x40000, 0x80 + c / 0x1000 % 0x40, 0x80 + c / 0x40 % 0x40, 0x80 + c % 0x40]
  }

  /** The code point a well-formed byte sequence stands for, by its lead byte. */
  function DecodePoint(b: seq<Byte>): int
    requires b != [] && |b| == LengthByLead(b[0])
  {
    var b0: int := b[0];
    if b0 < 0x80 then b0
    else if b0 < 0xE0 then (b0 - 0xC0) * 0x40 + (b[1] as int - 0x80)
    else if b0 < 0xF0 then (b0 - 0xE0) * 0x1000 + (b[1] as int - 0x80) * 0x40 + (b[2] as int - 0x80)
    else (b0 - 0xF0) * 0x40000 + (b[1] as int - 0x80) * 0x1000 + (b[2] as int - 0x80) * 0x40 + (b[3] as int - 0x80)
  }

  function LengthByLead(b: Byte): nat {
    if b < 0x80 then 1 else if b < 0xE0 then 2 else if b < 0xF0 then 3 else 4
  }

  /** Encoding loses nothing but lone surrogates. */
  lemma EncodedPointDecodes(c: Point)
    ensures |EncodePoint(c)| == LengthByLead(EncodePoint(c)[0])
    ensures DecodePoint(EncodePoint(c)) == Shown(c)
  {
    assert c / 0x40 / 0x40 == c / 0x1000 && c / 0x1000 / 0x40 == c / 0x40000;
  }

  function EncodeAll(points: seq<Point>): seq<Byte>
  {
    if points == [] then [] else EncodePoint(points[0]) + EncodeAll(points[1..])
  }

  /** The UTF-8 bytes of a string. */
  function Encode(s: seq<Unit>): seq<Byte> {
    EncodeAll(Decode(s))
  }

  // ----- and back -----

  /** The code points a byte sequence stands for, cut by lead bytes; `None` when it ends within one. */
  function DecodeBytes(b: seq<Byte>): Option<seq<int>> {
    if b == [] then Some([])
    else if |b| < LengthByLead(b[0]) then None
    else
      var n := LengthByLead(b[0]);
      var rest := DecodeBytes(b[n..]);
      if rest.None? then None else Some([DecodePoint(b[..n])] + rest.value)
  }

  function ShownAll(points: seq<Point>): seq<Point> {
    if points == [] then [] else [Shown(points[0])] + ShownAll(points[1..])
  }

  lemma FirstOfBytes(first: seq<Byte>, rest: seq<Byte>)
    requires first != [] && |first| == LengthByLead(first[0])
    ensures DecodeBytes(first + rest)
            == var more := DecodeBytes(rest); if more.None? then None else Some([DecodePoint(first)] + more.value)
  {
    var b := first + rest;
    assert b[0] == first[0] && b[..|first|] == first && b[|first|..] == rest;
  }

  /** The bytes of a string decode to its code points, with U+FFFD for each lone surrogate. */
  lemma {:induction false} EncodedDecodes(points: seq<Point>)
    ensures DecodeBytes(EncodeAll(points)) == Some(ShownAll(points))
  {
    if points != [] {
      EncodedDecodes(points[1..]);
      EncodedPointDecodes(points[0]);
      FirstOfBytes(EncodePoint(points[0]), EncodeAll(points[1..]));
    }
  }

  /** The UTF-16 units of a code point. */
  function UnitsOf(c: Point): seq<Unit> {
    if c < 0x10000 then [c] else [0xD800 + (c - 0x10000) / 0x400, 0xDC00 + (c - 0x10000) % 0x400]
  }

  function Spelled(points: seq<Point>): seq<Unit> {
    if points == [] then [] else UnitsOf(points[0]) + Spelled(points[1..])
  }

  lemma FirstSpelled(s: seq<Unit>)
    requires s != []
    ensures UnitsOf(FirstPoint(s)) == s[..FirstLength(s)] && |UnitsOf(Shown(FirstPoint(s)))| == FirstLength(s)
  {
    if FirstLength(s) == 2 {
      var c, high: int, low: int := FirstPoint(s), s[0], s[1];
      assert c - 0x10000 == (high - 0xD800) * 0x400 + (low - 0xDC00);
      assert UnitsOf(c) == [s[0], s[1]];
    }
  }

  lemma DecodeFirst(s: seq<Unit>)
    requires s != []
    ensures Decode(s)[0] == FirstPoint(s) && Decode(s)[1..] == Decode(s[FirstLength(s)..])
    ensures s == s[..FirstLength(s)] + s[FirstLength(s)..]
  {
  }

  /** The code points of a string spell it. */
  lemma {:induction false} DecodedSpells(s: seq<Unit>)
    ensures Spelled(Decode(s)) == s
  {
    if s != [] {
      FirstSpelled(s);
      DecodeFirst(s);
      DecodedSpells(s[FirstLength(s)..]);
    }
  }

  predicate NoLoneSurrogate(s: seq<Unit>) {
    forall c :: c in Decode(s) ==> !IsSurrogate(c)
  }

  lemma LoneLater(s: seq<Unit>)
    requires s != []
    ensures NoLoneSurrogate(s) <==> !IsSurrogate(FirstPoint(s)) && NoLoneSurrogate(s[FirstLength(s)..])
  {
    var points := Decode(s);
    DecodeFirst(s);
    assert points == [points[0]] + points[1..];
  }

  lemma {:induction false} ShownSpellsIff(s: seq<Unit>)
    ensures Spelled(ShownAll(Decode(s))) == s <==> NoLoneSurrogate(s)
  {
    if s != [] {
      var k := FirstLength(s);
      var first, rest := UnitsOf(Shown(FirstPoint(s))), Spelled(ShownAll(Decode(s[k..])));
      ShownSpellsIff(s[k..]);
      FirstSpelled(s);
      DecodeFirst(s);
      LoneLater(s);
      assert Spelled(ShownAll(Decode(s))) == first + rest;
      assert (first + rest)[..k] == first && (first + rest)[k..] == rest;
    }
  }

  /** A string comes back from its bytes exactly when it has no lone surrogate. */
  lemma RoundTripsIff(s: seq<Unit>)
    ensures DecodeBytes(Encode(s)) == Some(ShownAll(Decode(s)))
    ensures Spelled(ShownAll(Decode(s))) == s <==> NoLoneSurrogate(s)
  {
    EncodedDecodes(Decode(s));
    ShownSpellsIff(s);
  }

  // ----- cutting -----

  /** The first `n` code points of `s`, as units. */
  function TakePoints(s: seq<Unit>, n: nat): (p: seq<Unit>)
    ensures p <= s
  {
    if n == 0 || s == [] then [] else s[..FirstLength(s)] + TakePoints(s[FirstLength(s)..], n - 1)
  }

  lemma EncodeStep(s: seq<Unit>)
    requires s != []
    ensures Encode(s) == EncodePoint(FirstPoint(s)) + Encode(s[FirstLength(s)..])
  {
    assert Decode(s)[1..] == Decode(s[FirstLength(s)..]);
  }

  /** Bytes the source counts for the code point at the front of `s`. */
  lemma FirstPointBytes(s: seq<Unit>)
    requires s != []
    ensures |EncodePoint(FirstPoint(s))|
            == if s[0] < 0x80 then 1 else if s[0] < 0x800 then 2 else if FirstLength(s) == 2 then 4 else 3
  {
  }

  /** What is left to count from `index` on: the code point there, and the rest. */
  lemma RestBytes(value: seq<Unit>, index: nat)
    requires index < |value|
    ensures var n := FirstLength(value[index..]);
            && n == (if IsHigh(value[index]) && index + 1 < |value| && IsLow(value[index + 1]) then 2 else 1)
            && |Encode(value[index..])| == |Encode(value[index + n..])|
               + if value[index] < 0x80 then 1 else if value[index] < 0x800 then 2 else if n == 2 then 4 else 3
  {
    var rest := value[index..];
    EncodeStep(rest);
    FirstPointBytes(rest);
    assert rest[FirstLength(rest)..] == value[index + FirstLength(rest)..];
  }

  /** `utf8ByteLength`: the length of the UTF-8 encoding. */
  method Utf8ByteLength(value: seq<Unit>) returns (bytes: nat)
    ensures bytes == |Encode(value)|
  {
    bytes := 0;
    var index := 0;
    while index < |value|
      invariant 0 <= index <= |value|
      invariant bytes + |Encode(value[index..])| == |Encode(value)|
      decreases |value| - index
    {
      RestBytes(value, index);
      var code := value[index];
      if code < 0x80 {
        bytes := bytes + 1;
      } else if code < 0x800 {
        bytes := bytes + 2;
      } else if code >= 0xD800 && code <= 0xDBFF && index + 1 < |value| {
        var next := value[index + 1];
        if next >= 0xDC00 && next <= 0xDFFF {
          bytes := bytes + 4;
          index := index + 1;
        } else {
          bytes := bytes + 3;
        }
      } else {
        bytes := bytes + 3;
      }
      index := index + 1;
    }
    assert value[|value|..] == [];
  }

  // ----- trimming -----

  lemma OnePoint(s: seq<Unit>)
    requires s != []
    ensures Encode(s[..FirstLength(s)]) == EncodePoint(FirstPoint(s))
  {
    var p := s[..FirstLength(s)];
    EncodeStep(p);
    assert p[FirstLength(p)..] == [];
  }

  lemma AfterFirst(s: seq<Unit>, first: seq<Unit>, more: seq<Unit>, rest: seq<Unit>)
    requires s == first + more + rest
    ensures s[|first|..] == more + rest
  {
  }

  /** The code point after the first `n` is the first one of what they leave behind. */
  lemma {:induction false} TakeOneMore(s: seq<Unit>, n: nat, rest: seq<Unit>)
    requires n <= |Decode(s)| && s == TakePoints(s, n) + rest && rest != []
    ensures TakePoints(s, n + 1) == TakePoints(s, n) + rest[..FirstLength(rest)]
  {
    if n > 0 {
      var k := FirstLength(s);
      AfterFirst(s, s[..k], TakePoints(s[k..], n - 1), rest);
      TakeOneMore(s[k..], n - 1, rest);
    } else {
      assert TakePoints(s, 1) == s[..FirstLength(s)] + TakePoints(s[FirstLength(s)..], 0);
    }
  }

  lemma EncodeFirst(s: seq<Unit>, n: nat)
    requires s != [] && n > 0
    ensures Encode(TakePoints(s, n)) == EncodePoint(FirstPoint(s)) + Encode(TakePoints(s[FirstLength(s)..], n - 1))
  {
    var k, p := FirstLength(s), TakePoints(s, n);
    assert p[..k] == s[..k] && p[k..] == TakePoints(s[k..], n - 1);
    assert FirstLength(p) == k && FirstPoint(p) == FirstPoint(s);
    EncodeStep(p);
  }

  /** Cutting between code points keeps the bytes of the code points before the cut. */
  lemma {:induction false} EncodeTake(s: seq<Unit>, n: nat)
    requires n <= |Decode(s)|
    ensures Encode(TakePoints(s, n)) == EncodeAll(Decode(s)[..n])
  {
    if n > 0 {
      var tail := s[FirstLength(s)..];
      EncodeFirst(s, n);
      EncodeTake(tail, n - 1);
      assert Decode(s)[..n][1..] == Decode(tail)[..n - 1];
    }
  }

  lemma {:induction false} EncodeAllAppend(points: seq<Point>, c: Point)
    ensures EncodeAll(points + [c]) == EncodeAll(points) + EncodePoint(c)
  {
    if points == [] {
      assert EncodeAll([c]) == EncodePoint(c) + EncodeAll([c][1..]);
    } else {
      EncodeAllAppend(points[1..], c);
      assert (points + [c])[1..] == points[1..] + [c];
    }
  }

  /** The next code point's bytes come next. */
  lemma NextPointBytes(s: seq<Unit>, n: nat)
    requires n < |Decode(s)|
    ensures |Encode(TakePoints(s, n + 1))| == |Encode(TakePoints(s, n))| + |EncodePoint(Decode(s)[n])|
  {
    EncodeTake(s, n);
    EncodeTake(s, n + 1);
    EncodeOneMore(Decode(s), n);
  }

  lemma EncodeOneMore(points: seq<Point>, n: nat)
    requires n < |points|
    ensures EncodeAll(points[..n + 1]) == EncodeAll(points[..n]) + EncodePoint(points[n])
  {
    assert points[..n + 1] == points[..n] + [points[n]];
    EncodeAllAppend(points[..n], points[n]);
  }

  lemma {:induction false} TakeAll(s: seq<Unit>)
    ensures TakePoints(s, |Decode(s)|) == s
  {
    if s != [] {
      TakeAll(s[FirstLength(s)..]);
    }
  }

  /** More code points take more bytes. */
  lemma {:induction false} BytesGrow(s: seq<Unit>, m: nat, n: nat)
    requires m <= n <= |Decode(s)|
    ensures |Encode(TakePoints(s, m))| <= |Encode(TakePoints(s, n))|
    decreases n
  {
    if m < n {
      BytesGrow(s, m, n - 1);
      NextPointBytes(s, n - 1);
    }
  }

  /** The first `n` code points of `s` fit in `limit` bytes and no more do. */
  ghost predicate LongestThatFits(s: seq<Unit>, limit: nat, n: nat) {
    && n <= |Decode(s)| && |Encode(TakePoints(s, n))| <= limit
    && (forall m :: n < m <= |Decode(s)| ==> |Encode(TakePoints(s, m))| > limit)
  }

  /** `trimToUtf8Bytes`: the longest prefix of whole code points that fits. */
  method TrimToUtf8Bytes(value: seq<Unit>, maxBytes: nat) returns (output: seq<Unit>, ghost n: nat)
    ensures LongestThatFits(value, maxBytes, n) && output == TakePoints(value, n)
    ensures output <= value && |Encode(output)| <= maxBytes
    ensures |Encode(value)| <= maxBytes <==> output == value
  {
    var length := Utf8ByteLength(value);
    TakeAll(value);
    if length <= maxBytes {
      return value, |Decode(value)|;
    }
    output, n := TakeWhileFits(value, maxBytes);
  }

  /** `output` and `rest` are `value` cut after `n` code points. */
  ghost predicate CutAfter(value: seq<Unit>, n: nat, output: seq<Unit>, rest: seq<Unit>) {
    && n <= |Decode(value)| && output == TakePoints(value, n)
    && value == output + rest && Decode(rest) == Decode(value)[n..]
  }

  lemma CutOneLater(value: seq<Unit>, n: nat, output: seq<Unit>, rest: seq<Unit>, next: seq<Unit>, left: seq<Unit>)
    requires CutAfter(value, n, output, rest) && rest != []
    requires next == output + rest[..FirstLength(rest)] && left == rest[FirstLength(rest)..]
    ensures CutAfter(value, n + 1, next, left)
    ensures |Encode(next)| == |Encode(output)| + |EncodePoint(FirstPoint(rest))|
  {
    TakeOneMore(value, n, rest);
    CutBytes(value, n, rest);
    RestOneLater(value, n, rest);
    FirstIsCut(output, rest);
  }

  lemma FirstIsCut(output: seq<Unit>, rest: seq<Unit>)
    requires rest != []
    ensures output + rest == output + rest[..FirstLength(rest)] + rest[FirstLength(rest)..]
  {
  }

  lemma CutBytes(value: seq<Unit>, n: nat, rest: seq<Unit>)
    requires n <= |Decode(value)| && rest != [] && Decode(rest) == Decode(value)[n..]
    ensures n < |Decode(value)|
    ensures |Encode(TakePoints(value, n + 1))| == |Encode(TakePoints(value, n))| + |EncodePoint(FirstPoint(rest))|
  {
    PointAfterCut(value, n, rest);
    NextPointBytes(value, n);
  }

  lemma PointAfterCut(value: seq<Unit>, n: nat, rest: seq<Unit>)
    requires n <= |Decode(value)| && rest != [] && Decode(rest) == Decode(value)[n..]
    ensures n < |Decode(value)| && FirstPoint(rest) == Decode(value)[n]
  {
    assert Decode(rest)[0] == FirstPoint(rest);
  }

  lemma RestOneLater(value: seq<Unit>, n: nat, rest: seq<Unit>)
    requires n < |Decode(value)| && rest != [] && Decode(rest) == Decode(value)[n..]
    ensures Decode(rest[FirstLength(rest)..]) == Decode(value)[n + 1..]
  {
    assert Decode(rest[FirstLength(rest)..]) == Decode(rest)[1..];
  }

  method TakeWhileFits(value: seq<Unit>, maxBytes: nat) returns (output: seq<Unit>, ghost n: nat)
    ensures LongestThatFits(value, maxBytes, n) && output == TakePoints(value, n)
  {
    output, n := [], 0;
    var bytes, rest := 0, value;
    while rest != []
      invariant CutAfter(value, n, output, rest) && bytes == |Encode(output)| <= maxBytes
      decreases |rest|
    {
      var point := rest[..FirstLength(rest)];
      var charBytes := Utf8ByteLength(point);
      OnePoint(rest);
      CutOneLater(value, n, output, rest, output + point, rest[FirstLength(rest)..]);
      if bytes + charBytes > maxBytes {
        NoMoreFit(value, maxBytes, n);
        return;
      }
      output, rest, bytes, n := output + point, rest[FirstLength(rest)..], bytes + charBytes, n + 1;
    }
  }

  lemma NoMoreFit(s: seq<Unit>, limit: nat, n: nat)
    requires n < |Decode(s)| && |Encode(TakePoints(s, n + 1))| > limit
    ensures forall m :: n < m <= |Decode(s)| ==> |Encode(TakePoints(s, m))| > limit
  {
    forall m | n < m <= |Decode(s)|
      ensures |Encode(TakePoints(s, m))| > limit
    {
      BytesGrow(s, n + 1, m);
    }
  }
}
