/**
 * The line level of server-sent events: splitting a body into lines, reading events off the
 * lines, and printing events. A string is a sequence of bytes, one char per byte.
 */
module EventStream {

  datatype SseEvent = SseEvent(kind: string, data: string)

  // ---------------------------------------------------------------- text

  /** The ASCII part of unicode.IsSpace. */
  predicate IsSpace(c: char) {
    c == ' ' || c == '\t' || c == '\n' || c == '\r' || c as int == 11 || c as int == 12
  }

  function TrimLeft(s: string): string {
    if s != "" && IsSpace(s[0]) then TrimLeft(s[1..]) else s
  }

  function TrimRight(s: string): string {
    if s != "" && IsSpace(s[|s| - 1]) then TrimRight(s[..|s| - 1]) else s
  }

  /** strings.TrimSpace */
  function Trim(s: string): string {
    TrimRight(TrimLeft(s))
  }

  /** Text that survives being put on a line of its own and trimmed. */
  predicate Clean(s: string) {
    '\n' !in s && (s != "" ==> !IsSpace(s[0]) && !IsSpace(s[|s| - 1]))
  }

  lemma TrimAfterSpace(s: string)
    requires Clean(s)
    ensures Trim(" " + s) == s
  {
    assert (" " + s)[1..] == s;
    assert TrimLeft(" " + s) == TrimLeft(s) == s;
  }

  function JoinLines(lines: seq<string>): string
    requires lines != []
  {
    if |lines| == 1 then lines[0] else lines[0] + "\n" + JoinLines(lines[1..])
  }

  predicate HasPrefix(s: string, p: string) {
    |p| <= |s| && s[..|p|] == p
  }

  // ---------------------------------------------------------------- the scanner

  function DropCR(s: string): string {
    if s != "" && s[|s| - 1] == '\r' then s[..|s| - 1] else s
  }

  /** Position of the first newline, or the length. */
  function NewlineAt(s: string): (i: nat)
    ensures i <= |s| && (i < |s| ==> s[i] == '\n') && '\n' !in s[..i]
  {
    if s == "" || s[0] == '\n' then 0
    else
      assert forall j: nat {:trigger s[1..][..j]} :: j <= |s| - 1 ==> s[..1 + j] == [s[0]] + s[1..][..j];
      1 + NewlineAt(s[1..])
  }

  /** bufio.ScanLines: newline-terminated lines without a trailing \r, and an unterminated rest. */
  function SplitLines(s: string): seq<string> {
    if s == "" then []
    else
      var i := NewlineAt(s);
      if i == |s| then [DropCR(s)] else [DropCR(s[..i])] + SplitLines(s[i + 1..])
  }

  function Unlines(lines: seq<string>): string {
    if lines == [] then "" else Unlines(lines[..|lines| - 1]) + lines[|lines| - 1] + "\n"
  }

  lemma SplitFirst(line: string, rest: string)
    requires '\n' !in line
    ensures SplitLines(line + "\n" + rest) == [DropCR(line)] + SplitLines(rest)
  {
    var s := line + "\n" + rest;
    var i := NewlineAt(s);
    assert s[|line|] == '\n';
    assert forall j :: 0 <= j < i ==> s[..i][j] == s[j];
    assert forall j :: 0 <= j < |line| ==> s[j] == line[j];
    assert i == |line|;
    assert s[..i] == line && s[i + 1..] == rest;
  }

  // ---------------------------------------------------------------- reading events

  /** The event type and data lines collected since the last blank line. */
  datatype Reader = Reader(kind: string, data: seq<string>)

  const START := Reader("", [])

  function Step(r: Reader, line: string): Reader {
    if HasPrefix(line, "event:") then Reader(Trim(line[6..]), [])
    else if HasPrefix(line, "data:") then r.(data := r.data + [Trim(line[5..])])
    else if line == "" then START
    else r
  }

  /** The event pending in a reader, if any data line was seen. */
  function Pending(r: Reader): seq<SseEvent> {
    if r.data == [] then [] else [SseEvent(r.kind, JoinLines(r.data))]
  }

  /** The event a line completes: only a blank line does. */
  function Dispatch(r: Reader, line: string): seq<SseEvent> {
    if line == "" then Pending(r) else []
  }

  function ReaderAfter(r: Reader, lines: seq<string>): Reader
    decreases |lines|
  {
    if lines == [] then r else ReaderAfter(Step(r, lines[0]), lines[1..])
  }

  function EventsFrom(r: Reader, lines: seq<string>): seq<SseEvent>
    decreases |lines|
  {
    if lines == [] then [] else Dispatch(r, lines[0]) + EventsFrom(Step(r, lines[0]), lines[1..])
  }

  /** Events completed by a blank line. */
  function Terminated(lines: seq<string>): seq<SseEvent> {
    EventsFrom(START, lines)
  }

  /** The event left over at the end of the stream. */
  function Leftover(lines: seq<string>): seq<SseEvent> {
    Pending(ReaderAfter(START, lines))
  }

  lemma {:induction false} FeedOne(r: Reader, lines: seq<string>, line: string)
    ensures ReaderAfter(r, lines + [line]) == Step(ReaderAfter(r, lines), line)
    ensures EventsFrom(r, lines + [line]) == EventsFrom(r, lines) + Dispatch(ReaderAfter(r, lines), line)
    decreases |lines|
  {
    hide Step, Dispatch;
    if lines == [] {
      assert [] + [line] == [line] && [line][1..] == [];
      assert ReaderAfter(r, [line]) == ReaderAfter(Step(r, line), []);
      assert EventsFrom(r, [line]) == Dispatch(r, line) + EventsFrom(Step(r, line), []);
    } else {
      assert (lines + [line])[1..] == lines[1..] + [line];
      FeedOne(Step(r, lines[0]), lines[1..], line);
    }
  }

  // ---------------------------------------------------------------- printing events

  function EventLine(kind: string): string { "event: " + kind }

  function DataLine(data: string): string { "data: " + data }

  /** writeSSE */
  function Print(e: SseEvent): string {
    EventLine(e.kind) + "\n" + DataLine(e.data) + "\n\n"
  }

  function PrintAll(es: seq<SseEvent>): string {
    if es == [] then "" else Print(es[0]) + PrintAll(es[1..])
  }

  predicate CleanEvent(e: SseEvent) {
    Clean(e.kind) && Clean(e.data)
  }

  /** The two printed lines are single lines and keep their ends. */
  lemma LinesIntact(e: SseEvent)
    requires CleanEvent(e)
    ensures '\n' !in EventLine(e.kind) && DropCR(EventLine(e.kind)) == EventLine(e.kind)
    ensures '\n' !in DataLine(e.data) && DropCR(DataLine(e.data)) == DataLine(e.data)
  {
    var a, b := EventLine(e.kind), DataLine(e.data);
    assert e.kind == "" ==> a[|a| - 1] == ' ';
    assert e.kind != "" ==> a[|a| - 1] == e.kind[|e.kind| - 1];
    assert e.data == "" ==> b[|b| - 1] == ' ';
    assert e.data != "" ==> b[|b| - 1] == e.data[|e.data| - 1];
  }

  function Block(e: SseEvent): seq<string> {
    [EventLine(e.kind), DataLine(e.data), ""]
  }

  lemma SplitBlank(rest: string)
    ensures SplitLines("\n" + rest) == [""] + SplitLines(rest)
  {
    assert "" + "\n" + rest == "\n" + rest;
    assert DropCR("") == "";
    SplitFirst("", rest);
  }

  /** A line in front of text is a line in front of its lines. */
  lemma SplitWhole(line: string, text: string, lines: seq<string>)
    requires '\n' !in line && DropCR(line) == line && SplitLines(text) == lines
    ensures SplitLines(line + "\n" + text) == [line] + lines
  {
    hide SplitLines, DropCR;
    SplitFirst(line, text);
  }

  lemma PrintShape(e: SseEvent, rest: string)
    ensures Print(e) + rest == EventLine(e.kind) + "\n" + (DataLine(e.data) + "\n" + ("\n" + rest))
  {
    hide EventLine, DataLine;
    assert "\n\n" == "\n" + "\n";
  }

  lemma PrintedLines(e: SseEvent, rest: string)
    requires CleanEvent(e)
    ensures SplitLines(Print(e) + rest) == Block(e) + SplitLines(rest)
  {
    hide SplitLines, EventLine, DataLine, CleanEvent, Print, DropCR;
    var ls := SplitLines(rest);
    LinesIntact(e);
    PrintShape(e, rest);
    SplitBlank(rest);
    SplitWhole(DataLine(e.data), "\n" + rest, [""] + ls);
    SplitWhole(EventLine(e.kind), DataLine(e.data) + "\n" + ("\n" + rest), [DataLine(e.data)] + ([""] + ls));
    assert [EventLine(e.kind)] + ([DataLine(e.data)] + ([""] + ls)) == Block(e) + ls;
  }

  lemma ReadEventLine(r: Reader, kind: string)
    requires Clean(kind)
    ensures EventLine(kind) != "" && Step(r, EventLine(kind)) == Reader(kind, [])
  {
    hide Trim;
    var a := EventLine(kind);
    assert a[..6] == "event:" && a[6..] == " " + kind;
    TrimAfterSpace(kind);
  }

  lemma ReadDataLine(r: Reader, data: string)
    requires Clean(data)
    ensures DataLine(data) != "" && Step(r, DataLine(data)) == r.(data := r.data + [data])
  {
    hide Trim;
    var b := DataLine(data);
    assert b[..5] == "data:" && b[5..] == " " + data && b[0] == 'd';
    assert !HasPrefix(b, "event:") by { assert |b| >= 6 ==> b[..6][0] == 'd'; }
    TrimAfterSpace(data);
  }

  /** A printed block yields its event whatever the reader held before. */
  lemma PrintedBlock(r: Reader, e: SseEvent, rest: seq<string>)
    requires CleanEvent(e)
    ensures EventsFrom(r, Block(e) + rest) == [e] + EventsFrom(START, rest)
    ensures ReaderAfter(r, Block(e) + rest) == ReaderAfter(START, rest)
  {
    ReadEventLine(r, e.kind);
    ReadDataLine(Reader(e.kind, []), e.data);
    assert Step(Reader(e.kind, [e.data]), "") == START;
    assert Dispatch(Reader(e.kind, [e.data]), "") == [e];
    hide Step, EventLine, DataLine, Trim;
    var l0 := Block(e) + rest;
    var l1, l2 := [DataLine(e.data), ""] + rest, [""] + rest;
    assert l0[1..] == l1 && l1[1..] == l2 && l2[1..] == rest;
    assert [] + [e.data] == [e.data];
    assert EventsFrom(r, l0) == [] + EventsFrom(Reader(e.kind, []), l1);
    assert EventsFrom(Reader(e.kind, []), l1) == [] + EventsFrom(Reader(e.kind, [e.data]), l2);
    assert EventsFrom(Reader(e.kind, [e.data]), l2) == [e] + EventsFrom(START, rest);
    assert ReaderAfter(r, l0) == ReaderAfter(Reader(e.kind, []), l1);
    assert ReaderAfter(Reader(e.kind, []), l1) == ReaderAfter(Reader(e.kind, [e.data]), l2);
  }

  /** An event without its blank line completes nothing and is left over. */
  lemma Unterminated(e: SseEvent)
    requires CleanEvent(e)
    ensures Terminated([EventLine(e.kind), DataLine(e.data)]) == []
    ensures Leftover([EventLine(e.kind), DataLine(e.data)]) == [e]
  {
    ReadEventLine(START, e.kind);
    ReadDataLine(Reader(e.kind, []), e.data);
    hide Step, EventLine, DataLine, Trim;
    var l0 := [EventLine(e.kind), DataLine(e.data)];
    var l1 := [DataLine(e.data)];
    assert l0[1..] == l1 && l1[1..] == [];
    assert [] + [e.data] == [e.data];
    assert EventsFrom(START, l0) == [] + EventsFrom(Reader(e.kind, []), l1);
    assert EventsFrom(Reader(e.kind, []), l1) == [] + EventsFrom(Reader(e.kind, [e.data]), []);
    assert ReaderAfter(START, l0) == ReaderAfter(Reader(e.kind, []), l1);
    assert ReaderAfter(Reader(e.kind, []), l1) == Reader(e.kind, [e.data]);
  }

  /** Reading back what was printed gives the printed events, with nothing left over. */
  lemma {:induction false} PrintReadRoundTrip(es: seq<SseEvent>)
    requires forall i :: 0 <= i < |es| ==> CleanEvent(es[i])
    ensures Terminated(SplitLines(PrintAll(es))) == es
    ensures Leftover(SplitLines(PrintAll(es))) == []
  {
    if es != [] {
      hide Print, CleanEvent;
      var rest := PrintAll(es[1..]);
      PrintReadRoundTrip(es[1..]);
      PrintedLines(es[0], rest);
      PrintedBlock(START, es[0], SplitLines(rest));
    }
  }

  // ---------------------------------------------------------------- other spellings of the same stream

  ghost predicate AllSpace(s: string) { forall i :: 0 <= i < |s| ==> IsSpace(s[i]) }

  lemma {:induction false} TrimLeftPadding(pre: string, s: string)
    requires AllSpace(pre) && (s != "" ==> !IsSpace(s[0]))
    ensures TrimLeft(pre + s) == s
  {
    if pre == "" {
      assert pre + s == s;
    } else {
      assert (pre + s)[1..] == pre[1..] + s;
      TrimLeftPadding(pre[1..], s);
    }
  }

  lemma {:induction false} TrimRightPadding(s: string, post: string)
    requires AllSpace(post) && (s != "" ==> !IsSpace(s[|s| - 1]))
    ensures TrimRight(s + post) == s
  {
    if post == "" {
      assert s + post == s;
    } else {
      var n := |post| - 1;
      assert (s + post)[..|s + post| - 1] == s + post[..n];
      TrimRightPadding(s, post[..n]);
    }
  }

  /** Space around a field value does not matter. */
  lemma PaddingDoesNotMatter(pre: string, s: string, post: string)
    requires AllSpace(pre) && AllSpace(post) && Clean(s) && s != ""
    ensures Trim(pre + s + post) == s
  {
    assert pre + s + post == pre + (s + post) && (s + post)[0] == s[0];
    TrimLeftPadding(pre, s + post);
    TrimRightPadding(s, post);
  }

  /** A carriage return before the newline does not matter. */
  lemma CarriageReturnDoesNotMatter(line: string, rest: string)
    requires '\n' !in line && (line != "" ==> line[|line| - 1] != '\r')
    ensures SplitLines(line + "\r\n" + rest) == SplitLines(line + "\n" + rest) == [line] + SplitLines(rest)
  {
    hide SplitLines;
    assert line + "\r\n" + rest == (line + "\r") + "\n" + rest;
    assert (line + "\r")[..|line|] == line;
    SplitFirst(line + "\r", rest);
    SplitFirst(line, rest);
  }

  /** Nor does a newline after the last line. */
  lemma {:induction false} LastNewlineDoesNotMatter(s: string)
    requires s != "" && s[|s| - 1] != '\n'
    ensures SplitLines(s + "\n") == SplitLines(s)
    decreases |s|
  {
    var i := NewlineAt(s);
    if i == |s| {
      assert s + "\n" == s + "\n" + "" && '\n' !in s by { assert s[..i] == s; }
      SplitFirst(s, "");
      assert SplitLines("") == [];
    } else {
      var line, rest := s[..i], s[i + 1..];
      assert s == line + "\n" + rest && s + "\n" == line + "\n" + (rest + "\n");
      SplitFirst(line, rest);
      SplitFirst(line, rest + "\n");
      LastNewlineDoesNotMatter(rest);
    }
  }

  /** Lines that are no event line, no data line and not blank, such as comments, do not matter. */
  lemma {:induction false} OtherLinesDoNotMatter(r: Reader, above: seq<string>, line: string, below: seq<string>)
    requires line != "" && !HasPrefix(line, "event:") && !HasPrefix(line, "data:")
    ensures EventsFrom(r, above + [line] + below) == EventsFrom(r, above + below)
    ensures ReaderAfter(r, above + [line] + below) == ReaderAfter(r, above + below)
    decreases |above|
  {
    if above == [] {
      assert ([line] + below)[1..] == below && above + [line] + below == [line] + below && above + below == below;
      assert Step(r, line) == r && Dispatch(r, line) == [];
    } else {
      hide Step, Dispatch;
      assert (above + [line] + below)[1..] == above[1..] + [line] + below && (above + below)[1..] == above[1..] + below;
      OtherLinesDoNotMatter(Step(r, above[0]), above[1..], line, below);
    }
  }

  function DataLines(datas: seq<string>): seq<string> {
    seq(|datas|, i requires 0 <= i < |datas| => DataLine(datas[i]))
  }

  /** The data of an event, one line after the other. */
  function DataText(datas: seq<string>): string
    requires datas != []
  {
    if |datas| == 1 then datas[0] else DataText(datas[..|datas| - 1]) + "\n" + datas[|datas| - 1]
  }

  lemma {:induction false} TextIsJoined(datas: seq<string>)
    requires datas != []
    ensures JoinLines(datas) == DataText(datas)
    decreases |datas|
  {
    if |datas| == 2 {
      assert datas[1..] == [datas[1]] && datas[..1] == [datas[0]];
    } else if |datas| > 2 {
      var n := |datas| - 1;
      TextIsJoined(datas[1..]);
      TextIsJoined(datas[..n]);
      TextIsJoined(datas[1..n]);
      assert datas[1..][..n - 1] == datas[1..n] && datas[..n][1..] == datas[1..n];
    }
  }

  lemma {:induction false} DataLinesCollect(r: Reader, datas: seq<string>)
    requires forall i :: 0 <= i < |datas| ==> Clean(datas[i])
    ensures ReaderAfter(r, DataLines(datas)) == r.(data := r.data + datas)
    ensures EventsFrom(r, DataLines(datas)) == []
    decreases |datas|
  {
    hide Step, DataLine;
    if datas == [] {
      assert r.data + [] == r.data;
    } else {
      var n := |datas| - 1;
      DataLinesCollect(r, datas[..n]);
      assert DataLines(datas) == DataLines(datas[..n]) + [DataLine(datas[n])];
      FeedOne(r, DataLines(datas[..n]), DataLine(datas[n]));
      ReadDataLine(ReaderAfter(r, DataLines(datas[..n])), datas[n]);
      assert r.data + datas[..n] + [datas[n]] == r.data + datas;
    }
  }

  /** An event with several data lines, whatever was pending before, has them all, one to a line. */
  lemma SeveralDataLines(r: Reader, kind: string, datas: seq<string>)
    requires Clean(kind) && datas != [] && forall i :: 0 <= i < |datas| ==> Clean(datas[i])
    ensures EventsFrom(r, [EventLine(kind)] + DataLines(datas) + [""]) == [SseEvent(kind, DataText(datas))]
    ensures ReaderAfter(r, [EventLine(kind)] + DataLines(datas) + [""]) == START
  {
    hide Step, EventLine, DataLines, JoinLines, DataText;
    var lines := [EventLine(kind)] + DataLines(datas);
    var begun := Reader(kind, []);
    ReadEventLine(r, kind);
    DataLinesCollect(begun, datas);
    TextIsJoined(datas);
    assert lines[1..] == DataLines(datas) && [] + datas == datas;
    assert ReaderAfter(r, lines) == Reader(kind, datas) && EventsFrom(r, lines) == [];
    FeedOne(r, lines, "");
    BlankEnds(Reader(kind, datas));
  }

  lemma BlankEnds(r: Reader)
    ensures Step(r, "") == START
  {}

  /** An event line without data is no event, and clears what was pending. */
  lemma NoDataNoEvent(r: Reader, kind: string)
    requires Clean(kind)
    ensures EventsFrom(r, [EventLine(kind), ""]) == [] && ReaderAfter(r, [EventLine(kind), ""]) == START
  {
    hide EventLine;
    ReadEventLine(r, kind);
    assert [EventLine(kind), ""][1..] == [""] && [""][1..] == [];
    assert EventsFrom(Reader(kind, []), [""]) == [];
    BlankEnds(Reader(kind, []));
  }

  // ---------------------------------------------------------------- forwarding lines

  function WithoutCR(lines: seq<string>): seq<string> {
    if lines == [] then [] else WithoutCR(lines[..|lines| - 1]) + [DropCR(lines[|lines| - 1])]
  }

  lemma {:induction false} SplitConcat(lines: seq<string>, rest: string)
    requires forall i :: 0 <= i < |lines| ==> '\n' !in lines[i]
    ensures SplitLines(Unlines(lines) + rest) == WithoutCR(lines) + SplitLines(rest)
    decreases |lines|
  {
    hide SplitLines, DropCR;
    if lines == [] {
      assert Unlines(lines) + rest == rest;
    } else {
      var n := |lines| - 1;
      assert Unlines(lines) + rest == Unlines(lines[..n]) + (lines[n] + "\n" + rest);
      SplitConcat(lines[..n], lines[n] + "\n" + rest);
      SplitFirst(lines[n], rest);
      assert WithoutCR(lines[..n]) + ([DropCR(lines[n])] + SplitLines(rest)) == WithoutCR(lines) + SplitLines(rest);
    }
  }

  lemma {:induction false} SplitHasNoNewline(s: string)
    ensures forall i :: 0 <= i < |SplitLines(s)| ==> '\n' !in SplitLines(s)[i]
    decreases |s|
  {
    if s != "" {
      var i := NewlineAt(s);
      if i < |s| { SplitHasNoNewline(s[i + 1..]); }
      assert '\n' !in DropCR(s[..i]);
      assert i == |s| ==> s[..i] == s;
    }
  }

  lemma {:induction false} WithoutCRSame(lines: seq<string>)
    ensures WithoutCR(lines) == lines <==> forall i :: 0 <= i < |lines| ==> lines[i] == "" || lines[i][|lines[i]| - 1] != '\r'
  {
    if lines != [] {
      var n := |lines| - 1;
      WithoutCRSame(lines[..n]);
      assert |WithoutCR(lines[..n])| == n by { WithoutCRLength(lines[..n]); }
      assert lines == lines[..n] + [lines[n]];
      assert forall i :: 0 <= i < n ==> lines[..n][i] == lines[i];
    }
  }

  lemma {:induction false} WithoutCRLength(lines: seq<string>)
    ensures |WithoutCR(lines)| == |lines|
  {
    if lines != [] { WithoutCRLength(lines[..|lines| - 1]); }
  }

  /**
   * What the parsers forward reads as the same lines, and so as the same events, if and only if no
   * line of the body ends in a second carriage return: each reading drops one.
   */
  lemma ForwardedReadsSameIff(body: string)
    ensures var lines := SplitLines(body);
            SplitLines(Unlines(lines)) == lines <==> forall i :: 0 <= i < |lines| ==> lines[i] == "" || lines[i][|lines[i]| - 1] != '\r'
  {
    hide SplitLines, Unlines, WithoutCR;
    var lines := SplitLines(body);
    SplitHasNoNewline(body);
    SplitConcat(lines, "");
    NothingSplits();
    assert Unlines(lines) + "" == Unlines(lines) && WithoutCR(lines) + [] == WithoutCR(lines);
    WithoutCRSame(lines);
  }

  lemma NothingSplits()
    ensures SplitLines("") == []
  {}
}
