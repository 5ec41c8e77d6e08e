/** The journal file as bytes. Reading it back gives the lines that were written
    whole, and refuses the file when the last line is only partly there. The
    encoding of one event is any faithful one: it can be decoded, is not empty
    and holds no raw line break, as JSON with escaped control characters does. */
module JournalBytes {
  import opened Basics
  import opened LedgerModel
  import opened LedgerDisk

  type Byte = b: nat | b < 256
  type Bytes = seq<Byte>
  type Encoder = Event -> Bytes
  type Decoder = Bytes -> Option<Event>

  const NEWLINE: Byte := 10
  const RETURN: Byte := 13

  predicate HasBreak(line: Bytes) {
    NEWLINE in line || RETURN in line
  }

  ghost predicate Faithful(encode: Encoder, decode: Decoder) {
    forall e :: decode(encode(e)) == Some(e) && encode(e) != [] && !HasBreak(encode(e))
  }

  // ----- reading ----------------------------------------------------------------

  /** Where the first line break is, or the length of the text. */
  function BreakAt(raw: Bytes): (n: nat)
    ensures n <= |raw| && !HasBreak(raw[..n])
    ensures n < |raw| ==> raw[n] == NEWLINE || raw[n] == RETURN
  {
    if raw == [] || raw[0] == NEWLINE || raw[0] == RETURN then 0
    else
      var n := 1 + BreakAt(raw[1..]);
      assert raw[..n] == [raw[0]] + raw[1..][..n - 1];
      n
  }

  /** Where the text goes on after its first line break. */
  function AfterBreak(raw: Bytes): (n: nat)
    requires BreakAt(raw) < |raw|
    ensures BreakAt(raw) < n <= |raw|
  {
    var n := BreakAt(raw);
    if raw[n] == RETURN && n + 1 < |raw| && raw[n + 1] == NEWLINE then n + 2 else n + 1
  }

  /** The lines of a text, ended by a newline, a return, or both together. */
  function SplitLines(raw: Bytes): seq<Bytes>
    decreases |raw|
  {
    if raw == [] then []
    else if BreakAt(raw) == |raw| then [raw]
    else [raw[..BreakAt(raw)]] + SplitLines(raw[AfterBreak(raw)..])
  }

  function DecodeLines(decode: Decoder, lines: seq<Bytes>): Option<seq<Event>> {
    if lines == [] then Some([])
    else
      match DecodeLines(decode, Init(lines))
      case None => None
      case Some(events) =>
        if Last(lines) == [] || decode(Last(lines)).None? then None
        else Some(events + [decode(Last(lines)).value])
  }

  function ReadBytes(decode: Decoder, raw: Bytes): Option<seq<Event>> {
    if raw != [] && Last(raw) != NEWLINE then None else DecodeLines(decode, SplitLines(raw))
  }

  /** The loop over the lines that the program runs. */
  method ReadJournalEvents(decode: Decoder, raw: Bytes) returns (events: Option<seq<Event>>)
    ensures events == ReadBytes(decode, raw)
  {
    if raw != [] && raw[|raw| - 1] != NEWLINE {
      return None;
    }
    var lines, read := SplitLines(raw), [];
    for i := 0 to |lines|
      invariant DecodeLines(decode, lines[..i]) == Some(read)
    {
      AppendParts(lines[..i], lines[i]);
      assert lines[..i + 1] == lines[..i] + [lines[i]];
      if lines[i] == [] || decode(lines[i]).None? {
        RefusedLines(decode, lines, i + 1);
        return None;
      }
      read := read + [decode(lines[i]).value];
    }
    assert lines[..|lines|] == lines;
    return Some(read);
  }

  lemma {:induction false} RefusedLines(decode: Decoder, lines: seq<Bytes>, n: nat)
    requires n <= |lines| && DecodeLines(decode, lines[..n]) == None
    ensures DecodeLines(decode, lines) == None
  {
    if n < |lines| {
      assert Init(lines)[..n] == lines[..n];
      RefusedLines(decode, Init(lines), n);
    } else {
      assert lines[..n] == lines;
    }
  }

  // ----- writing ----------------------------------------------------------------

  function Line(encode: Encoder, e: Event): Bytes {
    encode(e) + [NEWLINE]
  }

  function FileBytes(encode: Encoder, events: seq<Event>): Bytes {
    if events == [] then [] else FileBytes(encode, Init(events)) + Line(encode, Last(events))
  }

  // ----- what is read back --------------------------------------------------------

  /** Lines written whole come back one by one, ahead of whatever follows. */
  lemma {:induction false} SplitAppend(before: Bytes, rest: Bytes)
    requires before != [] ==> Last(before) == NEWLINE
    ensures SplitLines(before + rest) == SplitLines(before) + SplitLines(rest)
    decreases |before|
  {
    hide BreakAt, AfterBreak, HasBreak, SplitLines;
    if before == [] {
      assert before + rest == rest;
      SplitNothing();
    } else {
      BreakBeforeEnd(before);
      BreakPrefix(before, rest);
      AfterBreakPrefix(before, rest);
      SplitFirst(before);
      SplitFirst(before + rest);
      var k, first := AfterBreak(before), before[..BreakAt(before)];
      var tail := before[k..];
      assert tail != [] ==> Last(tail) == NEWLINE;
      SplitAppend(tail, rest);
      assert (before + rest)[..BreakAt(before)] == first;
      assert (before + rest)[k..] == tail + rest;
      assert [first] + (SplitLines(tail) + SplitLines(rest)) == ([first] + SplitLines(tail)) + SplitLines(rest);
    }
  }

  lemma SplitNothing()
    ensures SplitLines([]) == []
  {
  }

  lemma BreakBeforeEnd(before: Bytes)
    requires before != [] && Last(before) == NEWLINE
    ensures BreakAt(before) < |before|
    ensures before[BreakAt(before)] == RETURN ==> BreakAt(before) + 1 < |before|
  {
    assert before[..|before|] == before && Last(before) in before;
  }

  lemma SplitFirst(raw: Bytes)
    requires BreakAt(raw) < |raw|
    ensures SplitLines(raw) == [raw[..BreakAt(raw)]] + SplitLines(raw[AfterBreak(raw)..])
  {
    hide BreakAt, AfterBreak;
  }

  lemma AfterBreakPrefix(before: Bytes, rest: Bytes)
    requires BreakAt(before) < |before| && BreakAt(before + rest) == BreakAt(before)
    requires before[BreakAt(before)] == RETURN ==> BreakAt(before) + 1 < |before|
    ensures AfterBreak(before + rest) == AfterBreak(before)
  {
    hide BreakAt;
  }

  lemma {:induction false} BreakPrefix(before: Bytes, rest: Bytes)
    requires BreakAt(before) < |before|
    ensures BreakAt(before + rest) == BreakAt(before)
  {
    if before[0] != NEWLINE && before[0] != RETURN {
      assert (before + rest)[1..] == before[1..] + rest;
      BreakPrefix(before[1..], rest);
    }
  }

  lemma {:induction false} NoBreak(line: Bytes)
    requires !HasBreak(line)
    ensures BreakAt(line) == |line| && BreakAt(line + [NEWLINE]) == |line|
  {
    if line != [] {
      assert line[0] in line && forall b :: b in line[1..] ==> b in line;
      assert (line + [NEWLINE])[1..] == line[1..] + [NEWLINE];
      NoBreak(line[1..]);
    }
  }

  lemma SplitOneLine(encode: Encoder, decode: Decoder, e: Event)
    requires Faithful(encode, decode)
    ensures SplitLines(Line(encode, e)) == [encode(e)]
  {
    var line := encode(e);
    assert decode(line) == Some(e);
    NoBreak(line);
    assert (line + [NEWLINE])[..|line|] == line;
    assert (line + [NEWLINE])[|line| + 1..] == [];
  }

  lemma {:induction false} EndsWithNewline(encode: Encoder, events: seq<Event>)
    requires events != []
    ensures FileBytes(encode, events) != [] && Last(FileBytes(encode, events)) == NEWLINE
  {
  }

  /** Round trip: the events written whole are the events read. */
  lemma {:induction false} WholeLinesRead(encode: Encoder, decode: Decoder, events: seq<Event>)
    requires Faithful(encode, decode)
    ensures ReadBytes(decode, FileBytes(encode, events)) == Some(events)
  {
    hide SplitLines, HasBreak;
    if events == [] {
      SplitNothing();
    } else {
      var before, e := Init(events), Last(events);
      WholeLinesRead(encode, decode, before);
      if before != [] {
        EndsWithNewline(encode, before);
      }
      EndsWithNewline(encode, events);
      SplitAppend(FileBytes(encode, before), Line(encode, e));
      SplitOneLine(encode, decode, e);
      AppendParts(SplitLines(FileBytes(encode, before)), encode(e));
      assert decode(encode(e)) == Some(e) && encode(e) != [];
      assert events == before + [e];
    }
  }

  /** A write that stops after n bytes of a line: nothing of it, all of it, or a
      file that is refused. There is no other outcome. */
  lemma PartialLineRead(encode: Encoder, decode: Decoder, events: seq<Event>, e: Event, n: nat)
    requires Faithful(encode, decode) && n <= |Line(encode, e)|
    ensures ReadBytes(decode, FileBytes(encode, events) + Line(encode, e)[..n]) ==
      if n == 0 then Some(events)
      else if n == |Line(encode, e)| then Some(events + [e])
      else None
  {
    var line, before := Line(encode, e), FileBytes(encode, events);
    WholeLinesRead(encode, decode, events);
    if n == 0 {
      assert before + line[..n] == before;
    } else if n == |line| {
      AppendParts(events, e);
      assert before + line[..n] == FileBytes(encode, events + [e]);
      WholeLinesRead(encode, decode, events + [e]);
    } else {
      var raw := before + line[..n];
      assert decode(encode(e)) == Some(e);
      assert Last(raw) == encode(e)[n - 1] && encode(e)[n - 1] in encode(e);
    }
  }

  // ----- any bytes at all ------------------------------------------------------------

  /** What ends a line: a newline, a return, or both together. */
  predicate Ends(b: Bytes) {
    b == [10] || b == [13] || b == [13, 10]
  }

  /** Lines one after the other, each with what ends it. */
  function Joined(lines: seq<Bytes>, ends: seq<Bytes>): Bytes
    requires |lines| == |ends|
  {
    if lines == [] then [] else lines[0] + ends[0] + Joined(lines[1..], ends[1..])
  }

  /** Lines that are not blank, none with a line break in it, each properly ended. */
  predicate ProperLines(lines: seq<Bytes>, ends: seq<Bytes>) {
    && |lines| == |ends|
    && forall i :: 0 <= i < |lines| ==> lines[i] != [] && 10 !in lines[i] && 13 !in lines[i] && Ends(ends[i])
  }

  lemma NoBreakTail(line: Bytes)
    requires !HasBreak(line) && line != []
    ensures !HasBreak(line[1..]) && line[0] != NEWLINE && line[0] != RETURN
  {
    assert line[0] in line && forall b :: b in line[1..] ==> b in line;
  }

  lemma {:induction false} BreakAfter(line: Bytes, rest: Bytes)
    requires !HasBreak(line) && rest != [] && (rest[0] == NEWLINE || rest[0] == RETURN)
    ensures BreakAt(line + rest) == |line|
  {
    if line == [] {
      assert line + rest == rest;
    } else {
      NoBreakTail(line);
      hide HasBreak;
      assert (line + rest)[1..] == line[1..] + rest && (line + rest)[0] == line[0];
      BreakAfter(line[1..], rest);
    }
  }

  lemma {:induction false} JoinedSplits(lines: seq<Bytes>, ends: seq<Bytes>)
    requires ProperLines(lines, ends)
    ensures SplitLines(Joined(lines, ends)) == lines
  {
    hide BreakAt, AfterBreak;
    if lines != [] {
      var line, end, rest := lines[0], ends[0], Joined(lines[1..], ends[1..]);
      JoinedSplits(lines[1..], ends[1..]);
      assert rest != [] ==> rest[0] == lines[1..][0][0] && lines[1..][0][0] in lines[1..][0];
      BreakAfter(line, end + rest);
      var raw := Joined(lines, ends);
      assert raw == line + (end + rest);
      assert raw[|line|..] == end + rest && raw[|line|] == end[0];
      AfterEnd(raw, line, end, rest);
      SplitFirst(raw);
      assert raw[..|line|] == line;
    }
  }

  lemma AfterEnd(raw: Bytes, line: Bytes, end: Bytes, rest: Bytes)
    requires Ends(end) && raw == line + (end + rest) && BreakAt(raw) == |line| && (rest != [] ==> rest[0] != NEWLINE)
    ensures AfterBreak(raw) == |line| + |end| && raw[|line| + |end|..] == rest
  {
    hide BreakAt;
    assert raw[|line|..] == end + rest;
  }

  /** Lines without a break in them, each properly ended, that make up the bytes. */
  predicate MakeUp(lines: seq<Bytes>, ends: seq<Bytes>, raw: Bytes) {
    && |lines| == |ends| && Joined(lines, ends) == raw
    && forall i :: 0 <= i < |lines| ==> !HasBreak(lines[i]) && Ends(ends[i])
  }

  lemma {:induction false} SplitJoins(raw: Bytes) returns (ends: seq<Bytes>)
    requires raw != [] ==> Last(raw) == NEWLINE
    ensures MakeUp(SplitLines(raw), ends, raw)
    decreases |raw|
  {
    hide BreakAt, AfterBreak, MakeUp, SplitLines, HasBreak, Ends;
    ends := [];
    if raw == [] {
      SplitNothing();
      NothingMakesUp();
    } else {
      BreakBeforeEnd(raw);
      EndOfLine(raw);
      SplitFirst(raw);
      var n, k := BreakAt(raw), AfterBreak(raw);
      var rest := raw[k..];
      assert rest != [] ==> Last(rest) == Last(raw);
      ends := SplitJoins(rest);
      OneMoreLine(raw[..n], raw[n..k], SplitLines(rest), ends, rest);
      assert raw == raw[..n] + raw[n..k] + rest;
      ends := [raw[n..k]] + ends;
    }
  }

  lemma NothingMakesUp()
    ensures MakeUp([], [], [])
  {
  }

  lemma OneMoreLine(line: Bytes, end: Bytes, lines: seq<Bytes>, ends: seq<Bytes>, rest: Bytes)
    requires MakeUp(lines, ends, rest) && !HasBreak(line) && Ends(end)
    ensures MakeUp([line] + lines, [end] + ends, line + end + rest)
  {
    hide HasBreak, Ends;
    assert ([line] + lines)[1..] == lines && ([end] + ends)[1..] == ends;
  }

  lemma EndOfLine(raw: Bytes)
    requires BreakAt(raw) < |raw|
    ensures Ends(raw[BreakAt(raw)..AfterBreak(raw)]) && !HasBreak(raw[..BreakAt(raw)])
  {
    hide BreakAt, HasBreak;
    var n, k := BreakAt(raw), AfterBreak(raw);
    if k == n + 1 {
      assert raw[n..k] == [raw[n]];
    } else {
      assert raw[n..k] == [raw[n], raw[n + 1]];
    }
  }

  lemma {:induction false} DecodedExactly(decode: Decoder, lines: seq<Bytes>, events: seq<Event>)
    ensures DecodeLines(decode, lines) == Some(events) <==>
      |events| == |lines| && forall i :: 0 <= i < |lines| ==> lines[i] != [] && decode(lines[i]) == Some(events[i])
  {
    if lines == [] {
    } else if events == [] {
    } else {
      DecodedExactly(decode, Init(lines), Init(events));
      assert events == Init(events) + [Last(events)];
    }
  }

  /** Which bytes are read, and as what: exactly those that are proper lines one after
      the other, the last ended by a newline, each of which decodes; and their events,
      in order, are what is read. Anything else is refused. */
  lemma ReadExactly(decode: Decoder, raw: Bytes, events: seq<Event>)
    ensures ReadBytes(decode, raw) == Some(events) <==>
      && (raw != [] ==> Last(raw) == 10)
      && exists lines, ends ::
           && ProperLines(lines, ends) && Joined(lines, ends) == raw && |events| == |lines|
           && forall i :: 0 <= i < |lines| ==> decode(lines[i]) == Some(events[i])
  {
    hide SplitLines, DecodeLines;
    if raw != [] ==> Last(raw) == NEWLINE {
      DecodedExactly(decode, SplitLines(raw), events);
      var ends := SplitJoins(raw);
      if ReadBytes(decode, raw) == Some(events) {
        assert ProperLines(SplitLines(raw), ends);
      }
      forall lines, ends | ProperLines(lines, ends) && Joined(lines, ends) == raw
        ensures SplitLines(raw) == lines
      {
        JoinedSplits(lines, ends);
      }
    }
  }

  // ----- the journal value of the ledger model ------------------------------------

  /** The bytes that a journal value stands for: its lines, then, when it is
      torn, a proper part of one more. */
  ghost predicate StandsFor(encode: Encoder, raw: Bytes, j: Journal) {
    if j.torn then
      exists e, n :: 0 < n < |Line(encode, e)| && raw == FileBytes(encode, j.events) + Line(encode, e)[..n]
    else raw == FileBytes(encode, j.events)
  }

  /** Reading the bytes refuses exactly the torn journals, and otherwise gives
      the events of the journal value. */
  lemma JournalRead(encode: Encoder, decode: Decoder, raw: Bytes, j: Journal)
    requires Faithful(encode, decode) && StandsFor(encode, raw, j)
    ensures ReadBytes(decode, raw) == if j.torn then None else Some(j.events)
  {
    if j.torn {
      var e, n :| 0 < n < |Line(encode, e)| && raw == FileBytes(encode, j.events) + Line(encode, e)[..n];
      PartialLineRead(encode, decode, j.events, e, n);
    } else {
      WholeLinesRead(encode, decode, j.events);
    }
  }

  /** Appending any prefix of a line to the bytes is one of the ways an append
      can end in the model. */
  lemma AppendedBytes(encode: Encoder, raw: Bytes, d: Disk, e: Event, n: nat)
    requires d.journal.Some? && !d.journal.value.torn && StandsFor(encode, raw, d.journal.value)
    requires n <= |Line(encode, e)|
    ensures var io := if n == 0 then NotWritten else if n == |Line(encode, e)| then Fine else TornLine;
      var d' := WriteLine(d, e, io);
      d'.journal.Some? && StandsFor(encode, raw + Line(encode, e)[..n], d'.journal.value)
  {
    AppendParts(d.journal.value.events, e);
  }
}
