/** The bounded logs of mobile/src/appLogger.ts: the durable background log on disk and the lines kept
    in memory. */
module DurableLog {
  import opened Wrappers
  import opened Utf8

  const MAX_LOG_BYTES := 256 * 1024
  const MAX_LINE_BYTES := 16 * 1024
  const MAX_ENTRIES := 500
  const NEWLINE: seq<Unit> := [10]

  /** A newline is no surrogate, so it never joins the code point before it. */
  lemma NewlineStandsAlone(s: seq<Unit>)
    requires s != []
    ensures FirstLength(s + NEWLINE) == FirstLength(s) && FirstPoint(s + NEWLINE) == FirstPoint(s)
    ensures (s + NEWLINE)[FirstLength(s)..] == s[FirstLength(s)..] + NEWLINE
  {
  }

  lemma {:induction false} EncodeWithNewline(s: seq<Unit>)
    ensures |Encode(s + NEWLINE)| == |Encode(s)| + 1
  {
    if s == [] {
      assert s + NEWLINE == NEWLINE;
      EncodeStep(NEWLINE);
      assert NEWLINE[1..] == [];
    } else {
      NewlineStandsAlone(s);
      EncodeStep(s);
      EncodeStep(s + NEWLINE);
      EncodeWithNewline(s[FirstLength(s)..]);
    }
  }

  /** A line as it is written: cut to the line limit at a code point, with a newline. */
  ghost predicate IsLineOf(text: seq<Unit>, line: seq<Unit>) {
    exists n :: LongestThatFits(line, 16_384, n) && TakePoints(line, n) != []
      && text == TakePoints(line, n) + [10]
  }

  class Log {
    var file: seq<Byte>
    var estimated: Option<nat>
    /** Whether `stat` reports the size; when it does not, the last estimate stands in. */
    var statWorks: bool
    /** Whether the platform can append; otherwise each write replaces the file. */
    var canAppend: bool
    /** While set, writes succeed. */
    var reliable: bool

    constructor (file: seq<Byte>, statWorks: bool, canAppend: bool, reliable: bool)
      ensures this.file == file && estimated == None
      ensures this.statWorks == statWorks && this.canAppend == canAppend && this.reliable == reliable
    {
      this.file, this.statWorks, this.canAppend, this.reliable := file, statWorks, canAppend, reliable;
      estimated := None;
    }

    /** The size the next write will go by is the file's real size. */
    ghost predicate SizeKnown()
      reads this
    {
      statWorks || estimated == Some(|file|)
    }

    /** Write or append `bytes`; a write that fails may leave any part of them. */
    method WriteFile(bytes: seq<Byte>, append: bool) returns (ok: bool)
      modifies `file
      ensures ok ==> file == (if append then old(file) else []) + bytes
      ensures !ok ==> exists n :: 0 <= n <= |bytes| && file == (if append then old(file) else []) + bytes[..n]
      ensures reliable ==> ok
    {
      var n: int := |bytes|;
      ok := true;
      if !reliable {
        ok := *;
        if !ok {
          n := *;
          if n < 0 || n > |bytes| {
            n := 0;
          }
        }
      }
      file := (if append then file else []) + bytes[..n];
      assert bytes[..|bytes|] == bytes;
    }

    /** `persistLogLine`. `text` is the line as written. */
    method PersistLogLine(line: seq<Unit>) returns (written: bool, ghost text: seq<Unit>)
      modifies `file, `estimated
      ensures written ==> IsLineOf(text, line)
      ensures var size := if statWorks then |old(file)| else old(estimated).GetOr(0);
              var startsOver := size + |Encode(text)| > 262_144;
              && (written ==> file == (if startsOver || !canAppend then [] else old(file)) + Encode(text))
              && estimated == if written then Some((if startsOver then 0 else size) + |Encode(text)|)
                              else old(estimated)
      ensures old(SizeKnown()) && written ==> |file| <= 262_144
      ensures old(SizeKnown()) && |old(file)| <= 262_144 ==> |file| <= 262_144
      ensures reliable ==> (written <==> exists n :: LongestThatFits(line, 16_384, n) && TakePoints(line, n) != [])
    {
      var safeLine, n := TrimToUtf8Bytes(line, MAX_LINE_BYTES);
      text := safeLine + NEWLINE;
      OnlyOneFits(line, n);
      if safeLine == [] {
        return false, text;
      }
      var lineToAppend := safeLine + NEWLINE;
      EncodeWithNewline(safeLine);
      var lineBytes := Utf8ByteLength(lineToAppend);
      var durableLogSize: nat := if statWorks then |file| else if estimated.Some? then estimated.value else 0;
      if durableLogSize + lineBytes > MAX_LOG_BYTES {
        written := WriteFile(Encode(lineToAppend), false);
        if written {
          estimated := Some(lineBytes);
        }
        return;
      }
      written := WriteFile(Encode(lineToAppend), canAppend);
      if written {
        estimated := Some(durableLogSize + lineBytes);
      }
    }

    /** There is one longest prefix. */
    lemma OnlyOneFits(line: seq<Unit>, n: nat)
      requires LongestThatFits(line, MAX_LINE_BYTES, n)
      ensures forall m :: LongestThatFits(line, MAX_LINE_BYTES, m) ==> m == n
    {
    }

    /** The durable log never outgrows its limit, whatever is logged and however writes fail. */
    method PersistAll(lines: seq<seq<Unit>>)
      requires statWorks && |file| <= MAX_LOG_BYTES
      modifies `file, `estimated
      ensures |file| <= MAX_LOG_BYTES
    {
      for i := 0 to |lines|
        invariant |file| <= MAX_LOG_BYTES
      {
        var written, text := PersistLogLine(lines[i]);
      }
    }
  }

  // ----- the lines in memory -----

  /** The last `n` lines. */
  function LastLines(lines: seq<string>, n: nat): seq<string> {
    if |lines| <= n then lines else lines[|lines| - n..]
  }

  class MemoryLog {
    var entries: seq<string>
    ghost var history: seq<string>

    ghost predicate Valid()
      reads this
    {
      entries == LastLines(history, MAX_ENTRIES)
    }

    constructor ()
      ensures Valid() && history == []
    {
      entries, history := [], [];
    }

    /** `addLog`, once the line is formatted: the entries are always the last 500 lines logged. */
    method AddLog(line: string)
      requires Valid()
      modifies this
      ensures Valid() && history == old(history) + [line]
      ensures |entries| == if |history| <= 500 then |history| else 500
      ensures forall i :: 0 <= i < |entries| ==> entries[i] == history[|history| - |entries| + i]
    {
      entries := entries + [line];
      var overflow := |entries| - MAX_ENTRIES;
      if overflow > 0 {
        entries := entries[overflow..];
      }
      history := history + [line];
    }
  }
}
