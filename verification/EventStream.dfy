/** The event-stream format of the WHATWG HTML standard: how a client reads it (sections 9.2.5
    and 9.2.6), and the framing facts a writer relies on. */
module EventStream {

  predicate IsEol(c: char) { c == '\n' || c == '\r' }

  predicate NoEol(s: string) { forall i :: 0 <= i < |s| ==> !IsEol(s[i]) }

  // ---- lines ----------------------------------------------------------------------------

  /** The index of the first line end, or the length. */
  function EolIndex(s: string): (i: nat)
    ensures i <= |s| && NoEol(s[..i]) && (i < |s| ==> IsEol(s[i]))
  {
    if s == "" || IsEol(s[0]) then 0 else
      var i := EolIndex(s[1..]);
      assert s[..i + 1] == [s[0]] + s[1..][..i];
      i + 1
  }

  /** The complete lines: each ends in CRLF, LF or CR.  Text after the last line end is pending
      data, which the end of the stream discards. */
  function Lines(s: string): (lines: seq<string>)
    ensures forall i :: 0 <= i < |lines| ==> NoEol(lines[i])
    decreases |s|
  {
    var i := EolIndex(s);
    if i == |s| then [] else
      var next := if s[i] == '\r' && i + 1 < |s| && s[i + 1] == '\n' then i + 2 else i + 1;
      [s[..i]] + Lines(s[next..])
  }

  // ---- events ---------------------------------------------------------------------------

  datatype Event = Event(kind: string, data: string, lastId: string)

  datatype Buffers = Buffers(data: string, kind: string, lastId: string)

  const FRESH := Buffers("", "", "")

  function FirstColon(line: string): (i: nat)
    ensures i <= |line| && ':' !in line[..i] && (i < |line| ==> line[i] == ':')
  {
    if line == "" || line[0] == ':' then 0 else
      var i := FirstColon(line[1..]);
      assert line[..i + 1] == [line[0]] + line[1..][..i];
      i + 1
  }

  /** What follows the colon, less one space. */
  function ValueOf(line: string): string {
    var i := FirstColon(line);
    if i == |line| then ""
    else if i + 1 < |line| && line[i + 1] == ' ' then line[i + 2..]
    else line[i + 1..]
  }

  function ProcessField(b: Buffers, field: string, value: string): Buffers {
    if field == "event" then b.(kind := value)
    else if field == "data" then b.(data := b.data + value + "\n")
    else if field == "id" then (if '\0' in value then b else b.(lastId := value))
    else b
  }

  /** One line that is not blank. */
  function ProcessLine(b: Buffers, line: string): Buffers {
    if line != "" && line[0] == ':' then b
    else ProcessField(b, line[..FirstColon(line)], ValueOf(line))
  }

  function ChopNewline(data: string): string {
    if data != "" && data[|data| - 1] == '\n' then data[..|data| - 1] else data
  }

  function Dispatch(b: Buffers): seq<Event> {
    if b.data == "" then []
    else [Event(if b.kind == "" then "message" else b.kind, ChopNewline(b.data), b.lastId)]
  }

  function Interpret(b: Buffers, lines: seq<string>): seq<Event>
    decreases |lines|
  {
    if lines == [] then []
    else if lines[0] == "" then Dispatch(b) + Interpret(Buffers("", "", b.lastId), lines[1..])
    else Interpret(ProcessLine(b, lines[0]), lines[1..])
  }

  /** The events of a whole stream; one leading byte order mark is ignored. */
  function Parse(stream: string): seq<Event> {
    Interpret(FRESH, Lines(if stream != "" && stream[0] == '\U{FEFF}' then stream[1..] else stream))
  }

  // ---- writing lines --------------------------------------------------------------------

  /** Lines, each followed by LF. */
  function Render(lines: seq<string>): string {
    if lines == [] then "" else lines[0] + "\n" + Render(lines[1..])
  }

  lemma {:induction false} RenderConcat(a: seq<string>, b: seq<string>)
    ensures Render(a + b) == Render(a) + Render(b)
  {
    if a == [] {
      assert a + b == b;
    } else {
      assert (a + b)[1..] == a[1..] + b;
      RenderConcat(a[1..], b);
    }
  }

  lemma {:induction false} EolAfter(line: string, rest: string)
    requires NoEol(line)
    ensures EolIndex(line + "\n" + rest) == |line|
  {
    var s := line + "\n" + rest;
    if line != "" {
      assert s[1..] == line[1..] + "\n" + rest;
      EolAfter(line[1..], rest);
    }
  }

  lemma FirstLine(line: string, rest: string)
    requires NoEol(line)
    ensures Lines(line + "\n" + rest) == [line] + Lines(rest)
  {
    var s := line + "\n" + rest;
    EolAfter(line, rest);
    assert s[..|line|] == line && s[|line|] == '\n' && s[|line| + 1..] == rest;
  }

  lemma {:induction false} EolAt(line: string, rest: string)
    requires NoEol(line) && rest != "" && IsEol(rest[0])
    ensures EolIndex(line + rest) == |line|
  {
    var s := line + rest;
    if line != "" {
      assert s[1..] == line[1..] + rest;
      EolAt(line[1..], rest);
    }
  }

  /** All three line ends are read alike. */
  lemma LineEnds(line: string, rest: string)
    requires NoEol(line)
    ensures Lines(line + ("\r\n" + rest)) == [line] + Lines(rest)
    ensures rest == "" || rest[0] != '\n' ==> Lines(line + ("\r" + rest)) == [line] + Lines(rest)
  {
    var s, t := line + ("\r\n" + rest), line + ("\r" + rest);
    EolAt(line, "\r\n" + rest);
    EolAt(line, "\r" + rest);
    assert s[|line|] == '\r' && s[|line| + 1] == '\n' && s[..|line|] == line && s[|line| + 2..] == rest;
    assert t[|line|] == '\r' && t[..|line|] == line && t[|line| + 1..] == rest;
  }

  lemma Regroup<T>(a: seq<T>, b: seq<T>, c: seq<T>)
    ensures a + b + c == a + (b + c)
  {}

  /** A reader that takes one line off at a time. */
  ghost predicate Splits(read: string -> seq<string>) {
    forall line: string, rest: string :: NoEol(line) ==> read(line + "\n" + rest) == [line] + read(rest)
  }

  lemma LinesSplits()
    ensures Splits(Lines)
  {
    forall line: string, rest: string | NoEol(line)
      ensures Lines(line + "\n" + rest) == [line] + Lines(rest)
    {
      FirstLine(line, rest);
    }
  }

  lemma {:induction false} RenderIsRead(read: string -> seq<string>, lines: seq<string>, rest: string)
    requires Splits(read) && forall i :: 0 <= i < |lines| ==> NoEol(lines[i])
    ensures read(Render(lines) + rest) == lines + read(rest)
  {
    if lines == [] {
      assert "" + rest == rest && lines + read(rest) == read(rest);
    } else {
      Regroup(lines[0] + "\n", Render(lines[1..]), rest);
      RenderIsRead(read, lines[1..], rest);
      Regroup([lines[0]], lines[1..], read(rest));
      assert lines == [lines[0]] + lines[1..];
    }
  }

  /** Lines without line ends are read back as they were written. */
  lemma LinesOfRender(lines: seq<string>, rest: string)
    requires forall i :: 0 <= i < |lines| ==> NoEol(lines[i])
    ensures Lines(Render(lines) + rest) == lines + Lines(rest)
  {
    LinesSplits();
    RenderIsRead(Lines, lines, rest);
  }

  // ---- data blocks ----------------------------------------------------------------------

  function DataLine(value: string): string { "data: " + value }

  lemma {:induction false} ColonAfter(name: string, rest: string)
    requires ':' !in name
    ensures FirstColon(name + ":" + rest) == |name|
  {
    var line := name + ":" + rest;
    if name != "" {
      assert line[1..] == name[1..] + ":" + rest;
      ColonAfter(name[1..], rest);
    }
  }

  lemma FieldLine(b: Buffers, name: string, value: string)
    requires name != "" && ':' !in name
    ensures ProcessLine(b, name + ": " + value) == ProcessField(b, name, value)
  {
    var line := name + ": " + value;
    assert line == name + ":" + (" " + value);
    ColonAfter(name, " " + value);
    assert line[0] == name[0] && name[0] in name;
    assert line[..|name|] == name && line[|name| + 1] == ' ' && line[|name| + 2..] == value;
  }

  lemma DataLineAppends(b: Buffers, value: string)
    ensures ProcessLine(b, DataLine(value)) == b.(data := b.data + value + "\n")
  {
    FieldLine(b, "data", value);
    assert "data" + ": " + value == DataLine(value);
  }

  /** The values, each preceded by "data: ". */
  function DataLines(values: seq<string>): seq<string> {
    if values == [] then [] else [DataLine(values[0])] + DataLines(values[1..])
  }

  /** Values joined by LF. */
  function Join(values: seq<string>): string {
    if values == [] then "" else if |values| == 1 then values[0] else values[0] + "\n" + Join(values[1..])
  }

  lemma {:induction false} RenderIsJoin(values: seq<string>)
    requires values != []
    ensures Render(values) == Join(values) + "\n"
  {
    if |values| > 1 {
      RenderIsJoin(values[1..]);
    } else {
      assert values[1..] == [];
      assert Render(values[1..]) == "";
    }
  }

  lemma InterpretLine(b: Buffers, line: string, more: seq<string>)
    requires line != ""
    ensures Interpret(b, [line] + more) == Interpret(ProcessLine(b, line), more)
  {
    assert ([line] + more)[1..] == more;
  }

  lemma InterpretBlank(b: Buffers, more: seq<string>)
    ensures Interpret(b, [""] + more) == Dispatch(b) + Interpret(Buffers("", "", b.lastId), more)
  {
    assert ([""] + more)[1..] == more;
  }

  lemma InterpretData(b: Buffers, value: string, more: seq<string>)
    ensures Interpret(b, [DataLine(value)] + more) == Interpret(b.(data := b.data + value + "\n"), more)
  {
    DataLineAppends(b, value);
    assert ([DataLine(value)] + more)[1..] == more;
  }

  lemma {:induction false} DataLinesAppend(b: Buffers, values: seq<string>, more: seq<string>)
    ensures Interpret(b, DataLines(values) + more) == Interpret(b.(data := b.data + Render(values)), more)
    decreases |values|
  {
    if values == [] {
      assert DataLines(values) + more == more && b.data + "" == b.data;
    } else {
      var rest := DataLines(values[1..]) + more;
      var b' := b.(data := b.data + values[0] + "\n");
      calc {
        Interpret(b, DataLines(values) + more);
        { Regroup([DataLine(values[0])], DataLines(values[1..]), more); }
        Interpret(b, [DataLine(values[0])] + rest);
        { InterpretData(b, values[0], rest); }
        Interpret(b', rest);
        { DataLinesAppend(b', values[1..], more); }
        Interpret(b'.(data := b'.data + Render(values[1..])), more);
        { Regroup(b.data, values[0], "\n"); Regroup(b.data, values[0] + "\n", Render(values[1..])); }
        Interpret(b.(data := b.data + Render(values)), more);
      }
    }
  }

  /** A block of data lines is one event whose data is the values joined by LF. */
  lemma DataBlock(kind: string, id: string, values: seq<string>, more: seq<string>)
    requires values != []
    ensures Interpret(Buffers("", kind, id), DataLines(values) + [""] + more) ==
            [Event(if kind == "" then "message" else kind, Join(values), id)]
            + Interpret(Buffers("", "", id), more)
  {
    Regroup(DataLines(values), [""], more);
    DataLinesAppend(Buffers("", kind, id), values, [""] + more);
    assert "" + Render(values) == Render(values);
    InterpretBlank(Buffers(Render(values), kind, id), more);
    DispatchBlock(kind, id, values);
  }

  lemma DispatchBlock(kind: string, id: string, values: seq<string>)
    requires values != []
    ensures Dispatch(Buffers(Render(values), kind, id)) == [Event(if kind == "" then "message" else kind, Join(values), id)]
  {
    RenderIsJoin(values);
    ChopsOne(Join(values));
  }

  lemma ChopsOne(s: string)
    ensures ChopNewline(s + "\n") == s && s + "\n" != ""
  {
    assert (s + "\n")[..|s|] == s;
  }

  // ---- what no stream can carry ---------------------------------------------------------

  lemma {:induction false} DataHasNoCr(b: Buffers, lines: seq<string>, i: nat)
    requires '\r' !in b.data && i < |Interpret(b, lines)|
    requires forall k :: 0 <= k < |lines| ==> NoEol(lines[k])
    ensures '\r' !in Interpret(b, lines)[i].data
    decreases |lines|
  {
    if lines[0] == "" {
      if i >= |Dispatch(b)| {
        DataHasNoCr(Buffers("", "", b.lastId), lines[1..], i - |Dispatch(b)|);
      }
    } else {
      assert NoEol(lines[0]);
      DataHasNoCr(ProcessLine(b, lines[0]), lines[1..], i);
    }
  }

  /** A line adds less to the data than it is long. */
  lemma LineGrowth(b: Buffers, line: string)
    ensures |ProcessLine(b, line).data| <= |b.data| + |line|
  {}
}
