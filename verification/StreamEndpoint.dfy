/** The ticker connection of EliteEvents.Web/Endpoints/StreamEndpoint.cs, read back by an
    event-stream client. */
module StreamEndpoint {
  import opened EventStream

  /** One ticker event in both of its forms. */
  datatype TickerFrame = TickerFrame(json: string, html: string)

  // ---- line handling --------------------------------------------------------------------

  /** `Split('\n')`. */
  function SplitLf(s: string): (lines: seq<string>)
    ensures lines != []
  {
    if s == "" then [""]
    else if s[0] == '\n' then [""] + SplitLf(s[1..])
    else
      var rest := SplitLf(s[1..]);
      [[s[0]] + rest[0]] + rest[1..]
  }

  /** `TrimEnd('\r')`. */
  function TrimCr(line: string): string {
    if line != "" && line[|line| - 1] == '\r' then TrimCr(line[..|line| - 1]) else line
  }

  function TrimAll(lines: seq<string>): seq<string> {
    if lines == [] then [] else [TrimCr(lines[0])] + TrimAll(lines[1..])
  }

  /** The HTML without the carriage returns that end a line: those with nothing but others like them
      before the next line feed or the end. */
  function Stripped(html: string): string {
    if html == "" then "" else Before(html[0], Stripped(html[1..]))
  }

  function Before(c: char, rest: string): string { if c == '\r' && EndsLine(rest) then rest else [c] + rest }

  predicate EndsLine(rest: string) { rest == "" || rest[0] == '\n' }

  /** Splitting into lines loses nothing. */
  lemma {:induction false} JoinOfSplit(s: string)
    ensures Join(SplitLf(s)) == s
  {
    if s != "" {
      var lines := SplitLf(s[1..]);
      JoinOfSplit(s[1..]);
      JoinHead(lines[0], lines[1..]);
      assert lines == [lines[0]] + lines[1..];
      if s[0] == '\n' {
        JoinHead("", lines);
      } else {
        JoinHead([s[0]] + lines[0], lines[1..]);
      }
    }
  }

  lemma JoinHead(line: string, lines: seq<string>)
    ensures Join([line] + lines) == if lines == [] then line else line + "\n" + Join(lines)
  {
    assert ([line] + lines)[1..] == lines;
  }

  /** What follows the first line. */
  function Following(lines: seq<string>): string { if lines == [] then "" else "\n" + Join(lines) }

  lemma JoinTrimmedHead(line: string, lines: seq<string>)
    ensures Join(TrimAll([line] + lines)) == TrimCr(line) + Following(TrimAll(lines))
  {
    assert ([line] + lines)[1..] == lines;
    JoinHead(TrimCr(line), TrimAll(lines));
  }

  lemma TrimBefore(c: char, line: string, after: string)
    requires c != '\n' && '\n' !in line && EndsLine(after)
    ensures TrimCr([c] + line) + after == Before(c, TrimCr(line) + after)
  {
    TrimCons(c, line);
    TrimKeepsChars(line);
    PlacedBefore(c, TrimCr(line), after);
  }

  lemma PlacedBefore(c: char, text: string, after: string)
    requires EndsLine(after) && (text == "" || text[0] != '\n')
    ensures Before(c, text + after) == (if text != "" then [c] + text else if c == '\r' then "" else [c]) + after
  {
    if text == "" {
      assert text + after == after;
    } else {
      assert (text + after)[0] == text[0];
      Regroup([c], text, after);
    }
  }

  /** Trimming the lines and joining them again is stripping. */
  lemma {:induction false} JoinOfTrimmed(s: string)
    ensures Join(TrimAll(SplitLf(s))) == Stripped(s)
  {
    if s == "" {
      JoinTrimmedHead("", []);
    } else {
      var rest := SplitLf(s[1..]);
      JoinOfTrimmed(s[1..]);
      if s[0] == '\n' {
        JoinTrimmedHead("", rest);
        TrimAllItems(rest);
      } else {
        assert rest == [rest[0]] + rest[1..];
        JoinTrimmedHead(rest[0], rest[1..]);
        JoinTrimmedHead([s[0]] + rest[0], rest[1..]);
        NoLfInSplit(s[1..]);
        TrimBefore(s[0], rest[0], Following(TrimAll(rest[1..])));
      }
    }
  }

  function WithoutCr(s: string): string {
    if s == "" then "" else (if s[0] == '\r' then "" else [s[0]]) + WithoutCr(s[1..])
  }

  /** Clean HTML is carried without its carriage returns and otherwise as it is. */
  lemma {:induction false} CleanIsWithoutCr(s: string)
    requires !InnerCr(s)
    ensures Stripped(s) == WithoutCr(s) && ('\r' !in s ==> Stripped(s) == s)
  {
    if s != "" {
      CleanIsWithoutCr(s[1..]);
      if s[0] == '\r' {
        StrippedHead(s[1..]);
      }
    }
  }

  lemma {:induction false} StrippedHead(s: string)
    requires !InnerCr(s) && (s == "" || IsEol(s[0]))
    ensures EndsLine(Stripped(s))
  {
    if |s| >= 2 && s[0] == '\r' {
      StrippedHead(s[1..]);
    }
  }

  // ---- the writer -----------------------------------------------------------------------

  function FrameLines(frame: TickerFrame): seq<string> {
    DataLines([frame.json]) + [""] + ["event: ticker"] + DataLines(TrimAll(SplitLf(frame.html))) + [""]
  }

  /** A frame as text: its lines, each ended by LF. */
  function Formatted(frame: TickerFrame): string { Render(FrameLines(frame)) }

  /** The block of HTML lines. */
  function Body(lines: seq<string>): string { Render(DataLines(TrimAll(lines))) }

  lemma BodyFrom(lines: seq<string>, i: nat, before: string)
    requires i < |lines|
    ensures before + Body(lines[i..]) == before + ("data: " + TrimCr(lines[i]) + "\n") + Body(lines[i + 1..])
  {
    var rest := TrimAll(lines[i + 1..]);
    var line := TrimCr(lines[i]);
    assert lines[i..][1..] == lines[i + 1..];
    assert TrimAll(lines[i..]) == [line] + rest;
    assert ([line] + rest)[1..] == rest;
    assert DataLines([line] + rest) == [DataLine(line)] + DataLines(rest);
    RenderConcat([DataLine(line)], DataLines(rest));
    RenderOne(DataLine(line));
  }

  lemma RenderOne(line: string)
    ensures Render([line]) == line + "\n"
  {
    assert [line][1..] == [];
    assert Render([line][1..]) == "";
  }

  lemma FormattedText(frame: TickerFrame)
    ensures Formatted(frame) == "data: " + frame.json + "\n\n" + "event: ticker\n"
              + Body(SplitLf(frame.html)) + "\n"
  {
    var body := DataLines(TrimAll(SplitLf(frame.html)));
    var json := DataLines([frame.json]);
    assert DataLines([frame.json][1..]) == [];
    assert json == [DataLine(frame.json)];
    RenderOne(DataLine(frame.json));
    RenderOne("");
    RenderOne("event: ticker");
    RenderConcat(json, [""]);
    RenderConcat(json + [""], ["event: ticker"]);
    RenderConcat(json + [""] + ["event: ticker"], body);
    RenderConcat(json + [""] + ["event: ticker"] + body, [""]);
  }

  method FormatFrame(frame: TickerFrame) returns (text: string)
    ensures text == Formatted(frame)
  {
    text := "data: " + frame.json + "\n\n";
    text := text + "event: ticker\n";
    ghost var head := text;
    var lines := SplitLf(frame.html);
    for i := 0 to |lines|
      invariant text + Body(lines[i..]) == head + Body(lines)
    {
      BodyFrom(lines, i, text);
      text := text + ("data: " + TrimCr(lines[i]) + "\n");
    }
    assert text == head + Body(lines);
    text := text + "\n";
    FormattedText(frame);
  }

  /** One turn of the connection loop: the wait timed out, or frames were ready. */
  datatype Turn = KeepAlive | Ready(frames: seq<TickerFrame>)

  /** The texts of some items, one after the other. */
  function Texts<T>(items: seq<T>, text: T -> string): string {
    if items == [] then "" else text(items[0]) + Texts(items[1..], text)
  }

  lemma TextsFrom<T>(items: seq<T>, text: T -> string, i: nat, before: string)
    requires i < |items|
    ensures before + Texts(items[i..], text) == before + text(items[i]) + Texts(items[i + 1..], text)
  {
    assert items[i..][1..] == items[i + 1..];
  }

  function TurnText(turn: Turn): string {
    match turn
    case KeepAlive => ": ping\n\n"
    case Ready(frames) => Texts(frames, Formatted)
  }

  /** Everything a connection writes until it is cancelled. */
  function Written(turns: seq<Turn>): string { ": connected\n\n" + Texts(turns, TurnText) }

  /** The inner loop: every frame that is ready, in order. */
  method WriteFrames(frames: seq<TickerFrame>) returns (text: string)
    ensures text == Texts(frames, Formatted)
  {
    text := "";
    for f := 0 to |frames|
      invariant text + Texts(frames[f..], Formatted) == Texts(frames, Formatted)
    {
      TextsFrom(frames, Formatted, f, text);
      var one := FormatFrame(frames[f]);
      text := text + one;
    }
  }

  /** What one turn of the loop writes. */
  method WriteTurn(turn: Turn) returns (text: string)
    ensures text == TurnText(turn)
  {
    match turn {
      case KeepAlive => text := ": ping\n\n";
      case Ready(frames) => text := WriteFrames(frames);
    }
  }

  method Serve(turns: seq<Turn>) returns (output: string)
    ensures output == Written(turns)
  {
    output := ": connected\n\n";
    for t := 0 to |turns|
      invariant output + Texts(turns[t..], TurnText) == Written(turns)
    {
      TextsFrom(turns, TurnText, t, output);
      var text := WriteTurn(turns[t]);
      output := output + text;
    }
  }

  // ---- which frames survive -------------------------------------------------------------

  predicate CleanJson(frame: TickerFrame) { NoEol(frame.json) }

  /** Some carriage return is followed by something other than a line end. */
  predicate InnerCr(s: string) {
    |s| >= 2 && ((s[0] == '\r' && !IsEol(s[1])) || InnerCr(s[1..]))
  }

  /** Carriage returns stand only before a line feed or at the end. */
  predicate CleanHtml(frame: TickerFrame) { !InnerCr(frame.html) }

  lemma {:induction false} InnerCrMeaning(s: string)
    ensures InnerCr(s) <==> exists i :: 0 <= i < |s| - 1 && s[i] == '\r' && !IsEol(s[i + 1])
  {
    if |s| >= 2 {
      InnerCrMeaning(s[1..]);
      if i :| 0 <= i < |s| - 1 && s[i] == '\r' && !IsEol(s[i + 1]) {
        if i > 0 {
          assert s[1..][i - 1] == '\r' && !IsEol(s[1..][i]);
        }
      }
      if InnerCr(s[1..]) {
        var i :| 0 <= i < |s[1..]| - 1 && s[1..][i] == '\r' && !IsEol(s[1..][i + 1]);
        assert s[i + 1] == '\r' && !IsEol(s[i + 1 + 1]);
      }
    }
  }

  lemma {:induction false} TrimCons(c: char, r: string)
    ensures TrimCr([c] + r) ==
            if TrimCr(r) == "" then (if c == '\r' then "" else [c]) else [c] + TrimCr(r)
    decreases |r|
  {
    var line := [c] + r;
    if r == "" {
    } else if r[|r| - 1] == '\r' {
      assert line[..|line| - 1] == [c] + r[..|r| - 1];
      TrimCons(c, r[..|r| - 1]);
    }
  }

  lemma {:induction false} TrimKeepsHead(r: string)
    requires r != "" && r[0] != '\r'
    ensures TrimCr(r) != "" && TrimCr(r)[0] == r[0]
  {
    TrimCons(r[0], r[1..]);
    assert r == [r[0]] + r[1..];
  }

  ghost predicate SomeCr(lines: seq<string>) {
    exists k :: 0 <= k < |lines| && '\r' in lines[k]
  }

  lemma SomeCrCons(line: string, lines: seq<string>)
    ensures SomeCr([line] + lines) <==> '\r' in line || SomeCr(lines)
  {
    var all := [line] + lines;
    if SomeCr(lines) {
      var k :| 0 <= k < |lines| && '\r' in lines[k];
      assert all[k + 1] == lines[k];
    }
    if '\r' in line {
      assert all[0] == line;
    }
  }

  /** Trimming leaves a carriage return in some line exactly when one stands inside a line. */
  lemma {:induction false} TrimmedCr(s: string)
    ensures SomeCr(TrimAll(SplitLf(s))) <==> InnerCr(s)
  {
    var lines := SplitLf(s);
    SomeCrCons(TrimCr(lines[0]), TrimAll(lines[1..]));
    if s == "" {
      assert lines[1..] == [];
    } else if s[0] == '\n' {
      TrimmedCr(s[1..]);
      assert lines[1..] == SplitLf(s[1..]);
    } else {
      var rest := SplitLf(s[1..]);
      TrimmedCr(s[1..]);
      SomeCrCons(TrimCr(rest[0]), TrimAll(rest[1..]));
      assert lines[1..] == rest[1..];
      TrimCons(s[0], rest[0]);
      FirstOfSplit(s[1..]);
      if rest[0] != "" && rest[0][0] != '\r' {
        TrimKeepsHead(rest[0]);
      } else if rest[0] != "" {
        TrimCons(rest[0][0], rest[0][1..]);
        assert rest[0] == [rest[0][0]] + rest[0][1..];
      }
    }
  }

  lemma FirstOfSplit(s: string)
    ensures SplitLf(s)[0] == "" <==> s == "" || s[0] == '\n'
    ensures SplitLf(s)[0] != "" ==> SplitLf(s)[0][0] == s[0]
  {}

  // ---- the round trip -------------------------------------------------------------------

  lemma {:induction false} NoLfInSplit(s: string)
    ensures forall k :: 0 <= k < |SplitLf(s)| ==> '\n' !in SplitLf(s)[k]
  {
    if s != "" {
      NoLfInSplit(s[1..]);
    }
  }

  lemma {:induction false} TrimKeepsChars(line: string)
    ensures TrimCr(line) <= line
  {
    if line != "" && line[|line| - 1] == '\r' {
      TrimKeepsChars(line[..|line| - 1]);
    }
  }

  lemma {:induction false} TrimAllItems(lines: seq<string>)
    ensures |TrimAll(lines)| == |lines|
    ensures forall k :: 0 <= k < |lines| ==> TrimAll(lines)[k] == TrimCr(lines[k])
  {
    if lines != [] {
      TrimAllItems(lines[1..]);
    }
  }

  lemma HtmlLinesClean(html: string)
    requires !InnerCr(html)
    ensures forall k :: 0 <= k < |TrimAll(SplitLf(html))| ==> NoEol(TrimAll(SplitLf(html))[k])
  {
    var lines := TrimAll(SplitLf(html));
    TrimmedCr(html);
    NoLfInSplit(html);
    TrimAllItems(SplitLf(html));
    forall k | 0 <= k < |lines|
      ensures NoEol(lines[k])
    {
      TrimKeepsChars(SplitLf(html)[k]);
      assert '\r' !in lines[k];
    }
  }

  lemma {:induction false} DataLinesClean(values: seq<string>)
    requires forall k :: 0 <= k < |values| ==> NoEol(values[k])
    ensures forall k :: 0 <= k < |DataLines(values)| ==> NoEol(DataLines(values)[k])
  {
    if values != [] {
      DataLinesClean(values[1..]);
    }
  }

  lemma FrameLinesClean(frame: TickerFrame)
    requires CleanJson(frame) && CleanHtml(frame)
    ensures forall k :: 0 <= k < |FrameLines(frame)| ==> NoEol(FrameLines(frame)[k])
  {
    HtmlLinesClean(frame.html);
    DataLinesClean(TrimAll(SplitLf(frame.html)));
    DataLinesClean([frame.json]);
  }

  /** What a client should receive for a frame. */
  function Events(frame: TickerFrame): seq<Event> {
    [Event("message", frame.json, ""), Event("ticker", Stripped(frame.html), "")]
  }

  lemma EventLine(b: Buffers, more: seq<string>)
    ensures Interpret(b, ["event: ticker"] + more) == Interpret(b.(kind := "ticker"), more)
  {
    FieldLine(b, "event", "ticker");
    assert "event" + ": " + "ticker" == "event: ticker";
    InterpretLine(b, "event: ticker", more);
  }

  /** A data block, then a named data block. */
  lemma TwoBlocks(json: string, values: seq<string>, more: seq<string>)
    requires values != []
    ensures Interpret(FRESH, DataLines([json]) + [""] + (["event: ticker"] + (DataLines(values) + [""] + more))) ==
            [Event("message", Join([json]), "")] + ([Event("ticker", Join(values), "")] + Interpret(FRESH, more))
  {
    var second := DataLines(values) + [""] + more;
    DataBlock("", "", [json], ["event: ticker"] + second);
    EventLine(FRESH, second);
    DataBlock("ticker", "", values, more);
  }

  lemma FrameLinesSplit(json: seq<string>, html: seq<string>, more: seq<string>)
    ensures json + [""] + ["event: ticker"] + html + [""] + more == json + [""] + (["event: ticker"] + (html + [""] + more))
  {}

  /** A frame's lines are two events and leave the client's buffers fresh. */
  lemma FrameInterpreted(frame: TickerFrame, more: seq<string>)
    ensures Interpret(FRESH, FrameLines(frame) + more) == Events(frame) + Interpret(FRESH, more)
  {
    var values := TrimAll(SplitLf(frame.html));
    TrimAllItems(SplitLf(frame.html));
    FrameLinesSplit(DataLines([frame.json]), DataLines(values), more);
    TwoBlocks(frame.json, values, more);
    assert Join([frame.json]) == frame.json;
    JoinOfTrimmed(frame.html);
  }

  /** The events of some items, one after the other. */
  function Reports<T>(items: seq<T>, events: T -> seq<Event>): seq<Event> {
    if items == [] then [] else events(items[0]) + Reports(items[1..], events)
  }

  function TurnEvents(turn: Turn): seq<Event> { if turn.Ready? then Reports(turn.frames, Events) else [] }

  function TurnsEvents(turns: seq<Turn>): seq<Event> { Reports(turns, TurnEvents) }

  predicate CleanFrame(frame: TickerFrame) { CleanJson(frame) && CleanHtml(frame) }

  predicate All<T>(items: seq<T>, p: T -> bool) { forall i :: 0 <= i < |items| ==> p(items[i]) }

  predicate CleanTurn(turn: Turn) { turn.Ready? ==> All(turn.frames, CleanFrame) }

  predicate CleanTurns(turns: seq<Turn>) { All(turns, CleanTurn) }

  // ---- reading one item after the other -------------------------------------------------

  /** The text of a clean item is read as its events, and the rest on its own. */
  ghost predicate ReadsOn<T(!new)>(read: string -> seq<Event>, text: T -> string, events: T -> seq<Event>, clean: T -> bool) {
    forall item: T, more: string :: clean(item) ==> read(text(item) + more) == events(item) + read(more)
  }

  /** An item that is read as its events was clean, and the rest was read on its own. */
  ghost predicate ReadsBack<T(!new)>(read: string -> seq<Event>, text: T -> string, events: T -> seq<Event>, clean: T -> bool) {
    forall item: T, more: string, later: seq<Event> ::
      read(text(item) + more) == events(item) + later ==> clean(item) && read(more) == later
  }

  lemma {:induction false} ReadAll<T(!new)>(read: string -> seq<Event>, text: T -> string, events: T -> seq<Event>, clean: T -> bool,
                                            items: seq<T>, more: string)
    requires ReadsOn(read, text, events, clean) && All(items, clean)
    ensures read(Texts(items, text) + more) == Reports(items, events) + read(more)
  {
    if items == [] {
      assert "" + more == more && [] + read(more) == read(more);
    } else {
      Regroup(text(items[0]), Texts(items[1..], text), more);
      ReadAll(read, text, events, clean, items[1..], more);
      Regroup(events(items[0]), Reports(items[1..], events), read(more));
    }
  }

  lemma {:induction false} ReadAllBack<T(!new)>(read: string -> seq<Event>, text: T -> string, events: T -> seq<Event>, clean: T -> bool,
                                                items: seq<T>, more: string, later: seq<Event>)
    requires ReadsBack(read, text, events, clean)
    requires read(Texts(items, text) + more) == Reports(items, events) + later
    ensures All(items, clean) && read(more) == later
  {
    if items == [] {
      assert "" + more == more && [] + later == later;
    } else {
      Regroup(text(items[0]), Texts(items[1..], text), more);
      Regroup(events(items[0]), Reports(items[1..], events), later);
      ReadAllBack(read, text, events, clean, items[1..], more, later);
    }
  }

  // ---- clean frames are read back -------------------------------------------------------

  /** Reading clean text that starts at a fresh block. */
  function ReadFresh(s: string): seq<Event> { Interpret(FRESH, Lines(s)) }

  lemma ReadFrame(frame: TickerFrame, rest: string)
    requires CleanJson(frame) && CleanHtml(frame)
    ensures ReadFresh(Formatted(frame) + rest) == Events(frame) + ReadFresh(rest)
  {
    FrameLinesClean(frame);
    LinesOfRender(FrameLines(frame), rest);
    FrameInterpreted(frame, Lines(rest));
  }

  lemma TwoBreaks(line: string, rest: string)
    ensures line + "\n\n" + rest == line + "\n" + ("" + "\n" + rest)
  {}

  lemma ReadComment(comment: string, rest: string)
    requires NoEol(comment) && comment != "" && comment[0] == ':'
    ensures ReadFresh(comment + "\n\n" + rest) == ReadFresh(rest)
  {
    TwoBreaks(comment, rest);
    FirstLine(comment, "" + "\n" + rest);
    FirstLine("", rest);
    InterpretLine(FRESH, comment, [""] + Lines(rest));
    InterpretBlank(FRESH, Lines(rest));
  }

  lemma FramesReadOn()
    ensures ReadsOn(ReadFresh, Formatted, Events, CleanFrame)
  {
    forall frame: TickerFrame, more: string | CleanFrame(frame)
      ensures ReadFresh(Formatted(frame) + more) == Events(frame) + ReadFresh(more)
    {
      ReadFrame(frame, more);
    }
  }

  lemma ReadPing(more: string)
    ensures ReadFresh(": ping\n\n" + more) == ReadFresh(more)
  {
    assert ": ping" + "\n\n" == ": ping\n\n";
    ReadComment(": ping", more);
  }

  lemma ReadTurn(turn: Turn, more: string)
    requires CleanTurn(turn)
    ensures ReadFresh(TurnText(turn) + more) == TurnEvents(turn) + ReadFresh(more)
  {
    match turn
    case KeepAlive =>
      ReadPing(more);
      assert [] + ReadFresh(more) == ReadFresh(more);
    case Ready(frames) =>
      FramesReadOn();
      ReadAll(ReadFresh, Formatted, Events, CleanFrame, frames, more);
  }

  lemma TurnsReadOn()
    ensures ReadsOn(ReadFresh, TurnText, TurnEvents, CleanTurn)
  {
    forall turn: Turn, more: string | CleanTurn(turn)
      ensures ReadFresh(TurnText(turn) + more) == TurnEvents(turn) + ReadFresh(more)
    {
      ReadTurn(turn, more);
    }
  }

  lemma ParseIsFresh(s: string)
    requires s != "" && s[0] != '\U{FEFF}'
    ensures Parse(s) == ReadFresh(s)
  {}

  /** After the greeting the client starts afresh. */
  lemma ReadGreeting(more: string)
    ensures Parse(": connected\n\n" + more) == ReadFresh(more)
  {
    assert ": connected" + "\n\n" == ": connected\n\n";
    ParseIsFresh(": connected\n\n" + more);
    ReadComment(": connected", more);
  }

  // ---- and no others --------------------------------------------------------------------

  /** A buffer that holds at least one data line. */
  predicate HoldsData(b: Buffers) { b.data != "" && b.data[|b.data| - 1] == '\n' }

  lemma {:induction false} JoinCr(values: seq<string>)
    ensures SomeCr(values) <==> '\r' in Join(values)
  {
    if values != [] {
      JoinCr(values[1..]);
      SomeCrCons(values[0], values[1..]);
      assert values == [values[0]] + values[1..];
      if |values| == 1 {
        assert values[1..] == [];
      }
    }
  }

  lemma ProcessKeepsData(b: Buffers, line: string)
    requires HoldsData(b)
    ensures HoldsData(ProcessLine(b, line)) && |ProcessLine(b, line).data| <= |b.data| + |line|
  {
    LineGrowth(b, line);
  }

  lemma DispatchIsShort(b: Buffers, more: seq<string>)
    requires HoldsData(b)
    ensures var events := Interpret(b, [""] + more); events != [] && |events[0].data| == |b.data| - 1
  {
    InterpretBlank(b, more);
  }

  /** Text with line feeds in it ends its first event short of its own length. */
  lemma {:induction false} FirstEventIsShort(b: Buffers, y: string, rest: string)
    requires HoldsData(b) && '\r' !in y
    ensures var events := Interpret(b, Lines(y + "\n\n" + rest));
            events != [] && |events[0].data| < |b.data| + |y|
    decreases |y|
  {
    var i := EolIndex(y);
    var u := y[..i];
    if i < |y| {
      assert y[i] in y;
      var w := y[i + 1..];
      assert y + "\n\n" + rest == u + "\n" + (w + "\n\n" + rest);
      FirstLine(u, w + "\n\n" + rest);
      if u == "" {
        DispatchIsShort(b, Lines(w + "\n\n" + rest));
      } else {
        InterpretLine(b, u, Lines(w + "\n\n" + rest));
        ProcessKeepsData(b, u);
        FirstEventIsShort(ProcessLine(b, u), w, rest);
      }
    } else {
      assert u == y;
      assert y + "\n\n" + rest == y + "\n" + ("" + "\n" + rest);
      FirstLine(y, "" + "\n" + rest);
      FirstLine("", rest);
      if y == "" {
        DispatchIsShort(b, [""] + Lines(rest));
      } else {
        InterpretLine(b, y, [""] + Lines(rest));
        ProcessKeepsData(b, y);
        DispatchIsShort(ProcessLine(b, y), Lines(rest));
      }
    }
  }

  /** The event a JSON text with a line feed in it is cut to. */
  lemma BrokenJson(x: string, y: string, rest: string)
    requires NoEol(x) && '\r' !in y
    ensures var events := ReadFresh("data: " + (x + "\n" + y) + "\n\n" + rest);
            events != [] && |events[0].data| < |x + "\n" + y|
  {
    var tail := y + "\n\n" + rest;
    assert "data: " + (x + "\n" + y) + "\n\n" + rest == DataLine(x) + "\n" + tail;
    FirstLine(DataLine(x), tail);
    InterpretData(FRESH, x, Lines(tail));
    FirstEventIsShort(Buffers("" + x + "\n", "", ""), y, rest);
  }

  lemma FormattedParts(frame: TickerFrame) returns (rest: string)
    ensures Formatted(frame) == "data: " + frame.json + "\n\n" + rest
  {
    FormattedText(frame);
    rest := "event: ticker\n" + Render(DataLines(TrimAll(SplitLf(frame.html)))) + "\n";
  }

  /** Unless the JSON is on one line, the first event read is shorter than the JSON. */
  lemma JsonMustBeClean(frame: TickerFrame, more: string)
    requires '\r' !in frame.json && !NoEol(frame.json)
    ensures var events := ReadFresh(Formatted(frame) + more); events != [] && |events[0].data| < |frame.json|
  {
    var i := EolIndex(frame.json);
    assert frame.json[i] in frame.json;
    var x, y := frame.json[..i], frame.json[i + 1..];
    assert frame.json == x + "\n" + y;
    var rest := FormattedParts(frame);
    assert Formatted(frame) + more == "data: " + (x + "\n" + y) + "\n\n" + (rest + more);
    BrokenJson(x, y, rest + more);
  }

  lemma HtmlMustBeClean(frame: TickerFrame)
    requires '\r' !in Stripped(frame.html)
    ensures CleanHtml(frame)
  {
    TrimmedCr(frame.html);
    JoinOfTrimmed(frame.html);
    JoinCr(TrimAll(SplitLf(frame.html)));
  }

  ghost predicate CrFree(events: seq<Event>) { forall i :: 0 <= i < |events| ==> '\r' !in events[i].data }

  lemma ReadIsCrFree(s: string)
    ensures CrFree(ReadFresh(s))
  {
    forall i | 0 <= i < |ReadFresh(s)|
      ensures '\r' !in ReadFresh(s)[i].data
    {
      DataHasNoCr(FRESH, Lines(s), i);
    }
  }

  /** A frame that is read back was clean, and what follows it is read on its own. */
  lemma FrameReadsBack(frame: TickerFrame, more: string, events: seq<Event>)
    requires ReadFresh(Formatted(frame) + more) == Events(frame) + events
    ensures CleanJson(frame) && CleanHtml(frame) && ReadFresh(more) == events
  {
    var all := ReadFresh(Formatted(frame) + more);
    ReadIsCrFree(Formatted(frame) + more);
    assert all[0] == Events(frame)[0] && all[1] == Events(frame)[1];
    HtmlMustBeClean(frame);
    if !NoEol(frame.json) {
      JsonMustBeClean(frame, more);
    }
    ReadFrame(frame, more);
    assert all[2..] == events && (Events(frame) + ReadFresh(more))[2..] == ReadFresh(more);
  }

  lemma FramesReadBack()
    ensures ReadsBack(ReadFresh, Formatted, Events, CleanFrame)
  {
    forall frame: TickerFrame, more: string, later: seq<Event> | ReadFresh(Formatted(frame) + more) == Events(frame) + later
      ensures CleanFrame(frame) && ReadFresh(more) == later
    {
      FrameReadsBack(frame, more, later);
    }
  }

  lemma TurnReadsBack(turn: Turn, more: string, later: seq<Event>)
    requires ReadFresh(TurnText(turn) + more) == TurnEvents(turn) + later
    ensures CleanTurn(turn) && ReadFresh(more) == later
  {
    match turn
    case KeepAlive =>
      ReadPing(more);
      assert [] + later == later;
    case Ready(frames) =>
      FramesReadBack();
      ReadAllBack(ReadFresh, Formatted, Events, CleanFrame, frames, more, later);
  }

  lemma TurnsReadBack()
    ensures ReadsBack(ReadFresh, TurnText, TurnEvents, CleanTurn)
  {
    forall turn: Turn, more: string, later: seq<Event> | ReadFresh(TurnText(turn) + more) == TurnEvents(turn) + later
      ensures CleanTurn(turn) && ReadFresh(more) == later
    {
      TurnReadsBack(turn, more, later);
    }
  }

  /** A whole connection, keep-alives and all, is read as one message event and one ticker event
      per frame, in order, exactly when every frame is clean. */
  lemma ConnectionRoundTrip(turns: seq<Turn>)
    ensures Parse(Written(turns)) == TurnsEvents(turns) <==> CleanTurns(turns)
  {
    var text, events := Texts(turns, TurnText), TurnsEvents(turns);
    ReadGreeting(text);
    NothingLeft(text, events);
    if CleanTurns(turns) {
      TurnsReadOn();
      ReadAll(ReadFresh, TurnText, TurnEvents, CleanTurn, turns, "");
    }
    if ReadFresh(text) == events {
      TurnsReadBack();
      ReadAllBack(ReadFresh, TurnText, TurnEvents, CleanTurn, turns, "", []);
    }
  }

  lemma NothingLeft(text: string, events: seq<Event>)
    ensures text + "" == text && events + [] == events && ReadFresh("") == []
  {}

  /** A frame is read back as its two events exactly when its JSON has no line end and its
      HTML has carriage returns only before a line feed or at its end. */
  lemma FrameRoundTripExactly(frame: TickerFrame)
    ensures Parse(Formatted(frame)) == Events(frame) <==> CleanJson(frame) && CleanHtml(frame)
  {
    var rest := FormattedParts(frame);
    assert Formatted(frame)[0] == 'd';
    ParseIsFresh(Formatted(frame));
    NothingLeft(Formatted(frame), Events(frame));
    if CleanJson(frame) && CleanHtml(frame) {
      ReadFrame(frame, "");
    }
    if Parse(Formatted(frame)) == Events(frame) {
      FrameReadsBack(frame, "", []);
    }
  }
}
