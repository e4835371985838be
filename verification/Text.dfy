/** JavaScript string operations that several modules use, on strings of UTF-16 code units. */
module Text {

  /** `toLowerCase`, exact on every letter whose lower case is an ASCII letter: A to Z and the Kelvin
      sign. Other characters have no ASCII lower case and are kept. */
  function LowerChar(c: char): char {
    if 'A' <= c <= 'Z' then (c as int + 32) as char else if c == '\U{212A}' then 'k' else c
  }

  function Lower(s: string): (r: string)
    ensures |r| == |s| && forall i :: 0 <= i < |s| ==> r[i] == LowerChar(s[i])
  {
    seq(|s|, i requires 0 <= i < |s| => LowerChar(s[i]))
  }

  /** The white space and line terminators `trim` removes. */
  predicate IsSpace(c: char) {
    || c == '\t' || c == '\n' || c == '\U{000B}' || c == '\U{000C}' || c == '\r' || c == ' '
    || c == '\U{00A0}' || c == '\U{1680}' || ('\U{2000}' <= c <= '\U{200A}') || c == '\U{2028}' || c == '\U{2029}'
    || c == '\U{202F}' || c == '\U{205F}' || c == '\U{3000}' || c == '\U{FEFF}'
  }

  predicate IsTrimmed(s: string) {
    s == "" || (!IsSpace(s[0]) && !IsSpace(s[|s| - 1]))
  }

  function TrimStart(s: string): (r: string)
    ensures r == "" || !IsSpace(r[0])
    ensures s != "" && !IsSpace(s[|s| - 1]) ==> r != "" && r[|r| - 1] == s[|s| - 1]
  {
    if s != "" && IsSpace(s[0]) then TrimStart(s[1..]) else s
  }

  function TrimEnd(s: string): (r: string)
    ensures r == "" || !IsSpace(r[|r| - 1])
  {
    if s != "" && IsSpace(s[|s| - 1]) then TrimEnd(s[..|s| - 1]) else s
  }

  /** `trim`. */
  function Trim(s: string): (r: string)
    ensures IsTrimmed(r)
    ensures IsTrimmed(s) ==> r == s
  {
    TrimStart(TrimEnd(s))
  }

  lemma LowerCharFacts(c: char)
    ensures IsSpace(LowerChar(c)) <==> IsSpace(c)
    ensures LowerChar(LowerChar(c)) == LowerChar(c)
  {
  }

  lemma LowerIsIdempotent(s: string)
    ensures Lower(Lower(s)) == Lower(s)
  {
    forall i | 0 <= i < |s|
      ensures LowerChar(LowerChar(s[i])) == LowerChar(s[i])
    {
      LowerCharFacts(s[i]);
    }
  }

  lemma LowerSlice(s: string, i: nat, j: nat)
    requires i <= j <= |s|
    ensures Lower(s)[i..j] == Lower(s[i..j])
  {
  }

  lemma {:induction false} TrimStartLower(s: string)
    ensures Lower(TrimStart(s)) == TrimStart(Lower(s))
    decreases |s|
  {
    if s != "" {
      LowerCharFacts(s[0]);
      LowerSlice(s, 1, |s|);
      assert Lower(s)[1..] == Lower(s)[1..|s|] && s[1..] == s[1..|s|];
      if IsSpace(s[0]) {
        TrimStartLower(s[1..]);
      }
    }
  }

  lemma {:induction false} TrimEndLower(s: string)
    ensures Lower(TrimEnd(s)) == TrimEnd(Lower(s))
    decreases |s|
  {
    if s != "" {
      LowerCharFacts(s[|s| - 1]);
      LowerSlice(s, 0, |s| - 1);
      if IsSpace(s[|s| - 1]) {
        TrimEndLower(s[..|s| - 1]);
      }
    }
  }

  /** Lower-casing never makes or removes white space. */
  lemma TrimLower(s: string)
    ensures Lower(Trim(s)) == Trim(Lower(s))
  {
    TrimEndLower(s);
    TrimStartLower(TrimEnd(s));
  }

  // ----- what trimming and lower-casing do, said without them -----

  /** The white space and line terminators of ECMAScript, by code. */
  lemma SpaceCodes(c: char)
    ensures IsSpace(c) <==> c as int in {9, 10, 11, 12, 13, 32, 160, 5760, 8232, 8233, 8239, 8287, 12288, 65279}
                            || 8192 <= c as int <= 8202
  {
  }

  predicate AllSpace(s: string) {
    forall i :: 0 <= i < |s| ==> IsSpace(s[i])
  }

  lemma {:induction false} TrimStartCuts(a: string, t: string)
    requires AllSpace(a) && IsTrimmed(t)
    ensures TrimStart(a + t) == t
  {
    if a == "" {
      assert a + t == t;
    } else {
      assert (a + t)[0] == a[0] && (a + t)[1..] == a[1..] + t;
      TrimStartCuts(a[1..], t);
    }
  }

  lemma {:induction false} TrimEndCuts(a: string, t: string, b: string)
    requires AllSpace(b) && IsTrimmed(t) && t != ""
    ensures TrimEnd(a + t + b) == a + t
  {
    if b == "" {
      assert a + t + b == a + t;
    } else {
      var last := |b| - 1;
      assert (a + t + b)[..|a + t + b| - 1] == a + t + b[..last];
      TrimEndCuts(a, t, b[..last]);
    }
  }

  lemma {:induction false} TrimBlank(a: string)
    requires AllSpace(a)
    ensures TrimEnd(a) == ""
  {
    if a != "" {
      TrimBlank(a[..|a| - 1]);
    }
  }

  /** Whatever white space is around a trimmed text, trimming gives that text back. */
  lemma TrimCuts(a: string, t: string, b: string)
    requires AllSpace(a) && AllSpace(b) && IsTrimmed(t)
    ensures Trim(a + t + b) == t
  {
    if t == "" {
      assert a + t + b == a + b;
      TrimBlank(a + b);
    } else {
      TrimEndCuts(a, t, b);
      TrimStartCuts(a, t);
    }
  }

  /** Trimming takes white space off both ends and nothing else. */
  lemma TrimSplits(s: string) returns (a: string, b: string)
    ensures s == a + Trim(s) + b && AllSpace(a) && AllSpace(b)
  {
    b := TrimEndSplits(s);
    a := TrimStartSplits(TrimEnd(s));
  }

  lemma {:induction false} TrimEndSplits(s: string) returns (b: string)
    ensures s == TrimEnd(s) + b && AllSpace(b)
  {
    b := "";
    if s != "" && IsSpace(s[|s| - 1]) {
      b := TrimEndSplits(s[..|s| - 1]);
      b := b + [s[|s| - 1]];
    }
  }

  lemma {:induction false} TrimStartSplits(s: string) returns (a: string)
    ensures s == a + TrimStart(s) && AllSpace(a)
  {
    a := "";
    if s != "" && IsSpace(s[0]) {
      a := TrimStartSplits(s[1..]);
      a := [s[0]] + a;
    }
  }

  /** One letter written in either case: A to Z are 65 to 90, a to z are 97 to 122, and the Kelvin sign is
      8490. */
  predicate SameLetter(c: char, lower: char) {
    || c == lower
    || (97 <= lower as int <= 122 && c as int == lower as int - 32)
    || (lower == 'k' && c as int == 8490)
  }

  /** `s` is `name` in some casing. */
  predicate CasingOf(s: string, name: string) {
    |s| == |name| && forall i :: 0 <= i < |s| ==> SameLetter(s[i], name[i])
  }

  /** Text in which lower-casing changes nothing. */
  predicate HasNoCapitals(name: string) {
    forall i :: 0 <= i < |name| ==> !(65 <= name[i] as int <= 90) && name[i] as int != 8490
  }

  lemma LowerLetter(c: char, lower: char)
    requires !(65 <= lower as int <= 90) && lower as int != 8490
    ensures LowerChar(c) == lower <==> SameLetter(c, lower)
  {
  }

  /** Lower-casing gives a text without capitals for exactly its casings. */
  lemma LowerIsCasing(s: string, name: string)
    requires HasNoCapitals(name)
    ensures Lower(s) == name <==> CasingOf(s, name)
  {
    if |s| == |name| {
      forall i | 0 <= i < |s|
        ensures Lower(s)[i] == name[i] <==> SameLetter(s[i], name[i])
      {
        LowerLetter(s[i], name[i]);
      }
    }
  }
}
