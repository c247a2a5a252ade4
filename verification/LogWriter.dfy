/** A file-like object that logs whole lines and keeps what is not yet a line in a buffer. */
module LogWriter {
  import opened Text

  function Prefixed(prefix: string, lines: seq<string>): (r: seq<string>)
    ensures |r| == |lines| && forall i | 0 <= i < |r| :: r[i] == prefix + lines[i]
  {
    seq(|lines|, i requires 0 <= i < |lines| => prefix + lines[i])
  }

  // ----- what writing means: one character after the other -----

  /** The lines logged so far and the text that is not yet a line. */
  datatype Written = Written(lines: seq<string>, rest: string)

  function Put(w: Written, c: char): Written {
    if c == '\n' then Written(w.lines + [w.rest], "") else Written(w.lines, w.rest + [c])
  }

  function Write(w: Written, data: string): Written
    decreases |data|
  {
    if data == "" then w else Write(Put(w, data[0]), data[1..])
  }

  /** How the text is cut into chunks does not matter: writing two texts is writing both at once. */
  lemma {:induction false} WriteInParts(w: Written, a: string, b: string)
    ensures Write(Write(w, a), b) == Write(w, a + b)
    decreases |a|
  {
    if a == "" {
      assert a + b == b;
    } else {
      assert (a + b)[1..] == a[1..] + b;
      WriteInParts(Put(w, a[0]), a[1..], b);
    }
  }

  /** The text that was written: every line with its end, and the rest. */
  function TextOf(w: Written): string {
    WithEnds(w.lines) + w.rest
  }

  function WithEnds(lines: seq<string>): string {
    if lines == [] then "" else WithEnds(lines[..|lines| - 1]) + lines[|lines| - 1] + "\n"
  }

  lemma PutKeepsText(w: Written, c: char)
    ensures TextOf(Put(w, c)) == TextOf(w) + [c]
  {
    assert (w.lines + [w.rest])[..|w.lines|] == w.lines;
  }

  /** Nothing is lost, added or moved: the text grows by exactly what is written. */
  lemma {:induction false} WriteKeepsText(w: Written, data: string)
    ensures TextOf(Write(w, data)) == TextOf(w) + data
    decreases |data|
  {
    if data == "" {
      assert TextOf(w) + data == TextOf(w);
    } else {
      PutKeepsText(w, data[0]);
      WriteKeepsText(Put(w, data[0]), data[1..]);
      assert TextOf(w) + [data[0]] + data[1..] == TextOf(w) + data by { assert [data[0]] + data[1..] == data; }
    }
  }

  predicate NoLineEnds(w: Written) {
    '\n' !in w.rest && forall i | 0 <= i < |w.lines| :: '\n' !in w.lines[i]
  }

  /** Each logged line is one line, and the rest is less than one. */
  lemma {:induction false} WriteLogsLines(w: Written, data: string)
    requires NoLineEnds(w)
    ensures NoLineEnds(Write(w, data))
    decreases |data|
  {
    if data != "" {
      WriteLogsLines(Put(w, data[0]), data[1..]);
    }
  }

  // ----- the same from the pieces between line ends -----

  function Absorb(w: Written, pieces: seq<string>): Written
    requires pieces != []
    decreases |pieces|
  {
    if |pieces| == 1 then Written(w.lines, w.rest + pieces[0])
    else Absorb(Written(w.lines + [w.rest + pieces[0]], ""), pieces[1..])
  }

  lemma AbsorbShifts(w: Written, c: char, q: seq<string>)
    requires q != []
    ensures Absorb(w, [[c] + q[0]] + q[1..]) == Absorb(Written(w.lines, w.rest + [c]), q)
  {
    var p := [[c] + q[0]] + q[1..];
    assert w.rest + p[0] == w.rest + [c] + q[0] && p[1..] == q[1..];
  }

  lemma {:induction false} WriteIsAbsorb(w: Written, data: string)
    ensures Write(w, data) == Absorb(w, Split(data, '\n'))
    decreases |data|
  {
    if data == "" {
      assert w.rest + "" == w.rest;
    } else {
      var q := Split(data[1..], '\n');
      WriteIsAbsorb(Put(w, data[0]), data[1..]);
      if data[0] == '\n' {
        assert w.rest + "" == w.rest && Split(data, '\n')[1..] == q;
      } else {
        AbsorbShifts(w, data[0], q);
      }
    }
  }

  // ----- the class -----

  lemma BufferAppend(buffer: seq<string>, s: string)
    ensures Concat(buffer + [s]) == Concat(buffer) + s
  {
    ConcatAppend(buffer, [s]);
    ConcatOne(s);
  }

  class LoggingFile {
    const prefix: string
    var buffer: seq<string>
    var logged: seq<string>
    ghost var lines: seq<string>

    ghost predicate Valid()
      reads this
    {
      && logged == Prefixed(prefix, lines)
      && (forall i | 0 <= i < |buffer| :: buffer[i] != "")
    }

    ghost function State(): Written
      reads this
    {
      Written(lines, Concat(buffer))
    }

    constructor (prefix: string)
      ensures Valid() && State() == Written([], "") && this.prefix == prefix
    {
      this.prefix := prefix;
      buffer, logged, lines := [], [], [];
    }

    method LogLine(line: string)
      modifies this`logged, this`lines
      ensures logged == old(logged) + [prefix + line] && lines == old(lines) + [line]
    {
      logged := logged + [prefix + line];
      lines := lines + [line];
    }

    method FlushBuffer()
      modifies this`logged, this`lines, this`buffer
      ensures buffer == []
      ensures if old(buffer) == [] then logged == old(logged) && lines == old(lines)
              else logged == old(logged) + [prefix + Concat(old(buffer))] && lines == old(lines) + [Concat(old(buffer))]
    {
      if buffer != [] {
        LogLine(Concat(buffer));
        buffer := [];
      }
    }

    method WriteData(data: string)
      requires Valid()
      modifies this
      ensures Valid() && State() == Write(old(State()), data)
    {
      var dataLines := Split(data, '\n');
      ghost var goal := Write(State(), data);
      WriteIsAbsorb(State(), data);
      var i := 0;
      if |dataLines| > 1 {
        BufferAppend(buffer, dataLines[0]);
        buffer := buffer + [dataLines[0]];
        FlushBuffer();
        i := 1;
        while i < |dataLines| - 1
          invariant 1 <= i <= |dataLines| - 1 && buffer == [] && logged == Prefixed(prefix, lines)
          invariant Absorb(State(), dataLines[i..]) == goal
        {
          assert "" + dataLines[i] == dataLines[i] && dataLines[i..][1..] == dataLines[i + 1..];
          LogLine(dataLines[i]);
          i := i + 1;
        }
      }
      assert dataLines[i..] == [Last(dataLines)];
      assert Concat(buffer) + "" == Concat(buffer);
      if Last(dataLines) != "" {
        BufferAppend(buffer, Last(dataLines));
        buffer := buffer + [Last(dataLines)];
      }
    }

    method WriteLines(chunks: seq<string>)
      requires Valid()
      modifies this
      ensures Valid() && State() == Write(old(State()), Concat(chunks))
    {
      for i := 0 to |chunks|
        invariant Valid() && State() == Write(old(State()), Concat(chunks[..i]))
      {
        BufferAppend(chunks[..i], chunks[i]);
        assert chunks[..i + 1] == chunks[..i] + [chunks[i]];
        WriteInParts(old(State()), Concat(chunks[..i]), chunks[i]);
        WriteData(chunks[i]);
      }
      assert chunks[..|chunks|] == chunks;
    }

    /** What is in the buffer is logged as a line, unless there is nothing. */
    method Flush()
      requires Valid()
      modifies this
      ensures Valid() && State().rest == ""
      ensures lines == old(lines) + if old(State()).rest == "" then [] else [old(State()).rest]
    {
      assert buffer != [] ==> Concat(buffer) == buffer[0] + Concat(buffer[1..]);
      FlushBuffer();
    }
  }
}
