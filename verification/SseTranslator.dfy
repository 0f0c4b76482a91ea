/**
 * The three stream consumers: ParseSSE (Anthropic pass-through), TranslateAnthropicSSEToResponses
 * and ParseOpenAIResponsesSSE. JSON is a codec: a record of encoding and decoding functions that
 * are inverse on the payloads the translator emits.
 */
module SseTranslator {
  import opened Basics
  import opened EventStream

  datatype TokenCounts = TokenCounts(input: int, output: int, cacheCreation: int, cacheRead: int,
                                     messageId: string, model: string, textBytes: int)

  const NO_COUNTS := TokenCounts(0, 0, 0, 0, "", "", 0)

  // ---------------------------------------------------------------- payloads

  /** The JSON bodies the translator writes. */
  datatype Payload =
    | Created(id: string, model: string)
    | InProgress(id: string, model: string)
    | ItemAdded(item: int)
    | PartAdded(item: int, part: int)
    | TextDelta(item: int, part: int, delta: string)
    | TextDone(item: int, part: int)
    | PartDone(item: int, part: int)
    | ItemDone(item: int)
    | Completed(id: string, model: string, input: int, output: int, total: int)

  /** The fields read from an upstream message_start. */
  datatype MessageStart = MessageStart(id: string, model: string, input: int, cacheCreation: int, cacheRead: int)

  datatype BlockDelta = BlockDelta(kind: string, text: string)

  /** The fields read from a response.completed, under either naming; absent numbers are zero. */
  datatype Completion = Completion(id: string, model: string, input: int, output: int, prompt: int, completion: int)

  /**
   * json.Marshal and the json.Unmarshal targets of the three parsers; None is a decoding error.
   * `text` tells the strings JSON can carry (valid UTF-8), `plainType` the documents whose member
   * "type" is absent, null or a string. ParseSSE's targets have that member, the translator's do not.
   */
  datatype Codec = Codec(
    text: string -> bool,
    plainType: string -> bool,
    encode: Payload -> string,
    decodeStart: string -> Option<MessageStart>,
    decodeBlockDelta: string -> Option<BlockDelta>,
    decodeUsage: string -> Option<int>,
    decodeTypedStart: string -> Option<MessageStart>,
    decodeTypedUsage: string -> Option<int>,
    decodeTextDelta: string -> Option<string>,
    decodeCompletion: string -> Option<Completion>
  )

  /** Encoded JSON is one trimmed line, decoding inverts encoding of text, and decoding yields text. */
  ghost predicate Faithful(c: Codec) {
    && (forall p :: Clean(c.encode(p)))
    && (forall i, j, d :: c.text(d) ==> c.decodeTextDelta(c.encode(TextDelta(i, j, d))) == Some(d))
    && (forall id, m, i, o, t :: c.text(id) && c.text(m) ==>
          c.decodeCompletion(c.encode(Completed(id, m, i, o, t))) == Some(Completion(id, m, i, o, 0, 0)))
    && c.text("") && (forall id :: c.text(id) ==> c.text("resp_" + id))
    && (forall s :: c.decodeStart(s).Some? ==> c.text(c.decodeStart(s).value.id) && c.text(c.decodeStart(s).value.model))
    && (forall s :: c.decodeBlockDelta(s).Some? ==> c.text(c.decodeBlockDelta(s).value.text))
  }

  /** A string target for "type" changes nothing where the member fits and fails where it does not. */
  ghost predicate TypedTargets(c: Codec) {
    forall s :: c.decodeTypedStart(s) == (if c.plainType(s) then c.decodeStart(s) else None) &&
                c.decodeTypedUsage(s) == (if c.plainType(s) then c.decodeUsage(s) else None)
  }

  /** The strings of a payload that a parser reads back are text. */
  predicate Carriable(c: Codec, p: Payload) {
    && (p.TextDelta? ==> c.text(p.delta))
    && (p.Completed? ==> c.text(p.id) && c.text(p.model))
  }

  /** The SSE event name of a payload. */
  function KindOf(p: Payload): string {
    match p
    case Created(_, _) => "response.created"
    case InProgress(_, _) => "response.in_progress"
    case ItemAdded(_) => "response.output_item.added"
    case PartAdded(_, _) => "response.content_part.added"
    case TextDelta(_, _, _) => "response.output_text.delta"
    case TextDone(_, _) => "response.output_text.done"
    case PartDone(_, _) => "response.content_part.done"
    case ItemDone(_) => "response.output_item.done"
    case Completed(_, _, _, _, _) => "response.completed"
  }

  /** Event names are clean, and only two of them mean something to the Responses parser. */
  lemma KindsTellApart(p: Payload)
    ensures Clean(KindOf(p))
    ensures KindOf(p) == "response.output_text.delta" <==> p.TextDelta?
    ensures KindOf(p) == "response.completed" <==> p.Completed?
  {
    var k := KindOf(p);
    match p
    case Created(_, _) => assert |k| == 16;
    case InProgress(_, _) => assert |k| == 20;
    case ItemAdded(_) => assert |k| == 26 && k[16] == 'i';
    case PartAdded(_, _) => assert |k| == 27;
    case TextDelta(_, _, _) => assert |k| == 26;
    case TextDone(_, _) => assert |k| == 25;
    case PartDone(_, _) => assert |k| == 26 && k[9] == 'c';
    case ItemDone(_) => assert |k| == 25;
    case Completed(_, _, _, _, _) => assert |k| == 18;
  }

  function Emit(c: Codec, p: Payload): SseEvent {
    SseEvent(KindOf(p), c.encode(p))
  }

  function EmitAll(c: Codec, ps: seq<Payload>): seq<SseEvent> {
    if ps == [] then [] else EmitAll(c, ps[..|ps| - 1]) + [Emit(c, ps[|ps| - 1])]
  }

  // ---------------------------------------------------------------- one event of each parser

  /** parseSSEEvent */
  function ParseAnthropic(c: Codec, counts: TokenCounts, e: SseEvent): TokenCounts {
    if e.kind == "message_start" then
      match c.decodeTypedStart(e.data)
      case None => counts
      case Some(m) => counts.(messageId := m.id, model := m.model, input := m.input, cacheCreation := m.cacheCreation, cacheRead := m.cacheRead)
    else if e.kind == "message_delta" then
      match c.decodeTypedUsage(e.data)
      case None => counts
      case Some(n) => counts.(output := n)
    else counts
  }

  /** parseOpenAIResponsesSSEEvent */
  function ParseResponses(c: Codec, counts: TokenCounts, e: SseEvent): TokenCounts {
    if e.kind == "response.output_text.delta" then
      match c.decodeTextDelta(e.data)
      case None => counts
      case Some(d) => counts.(textBytes := counts.textBytes + |d|)
    else if e.kind == "response.completed" then
      match c.decodeCompletion(e.data)
      case None => counts
      case Some(r) =>
        counts.(messageId := r.id, model := r.model,
                input := if r.input == 0 && r.prompt != 0 then r.prompt else r.input,
                output := if r.output == 0 && r.completion != 0 then r.completion else r.output)
    else counts
  }

  /**
   * A response.completed carries its usage under either naming: the Responses names count where they
   * are not zero, the Chat Completions names otherwise; id and model always, text bytes never.
   */
  lemma UsageUnderEitherNaming(c: Codec, counts: TokenCounts, e: SseEvent, r: Completion)
    requires e.kind == "response.completed" && c.decodeCompletion(e.data) == Some(r)
    ensures var after := ParseResponses(c, counts, e);
            && after.messageId == r.id && after.model == r.model && after.textBytes == counts.textBytes
            && after.input == (if r.input != 0 then r.input else r.prompt)
            && after.output == (if r.output != 0 then r.output else r.completion)
            && after.cacheCreation == counts.cacheCreation && after.cacheRead == counts.cacheRead
  {
    var k := e.kind;
    assert |k| == 18;
  }

  /** The variables translateAnthropicSSEEvent updates through pointers. */
  datatype Translation = Translation(counts: TokenCounts, responseId: string, model: string, item: int, part: int)

  const FRESH := Translation(NO_COUNTS, "", "", 0, 0)

  /** translateAnthropicSSEEvent: the new state. */
  function Translate(c: Codec, t: Translation, e: SseEvent): Translation {
    if e.kind == "message_start" then
      match c.decodeStart(e.data)
      case None => t
      case Some(m) =>
        t.(responseId := "resp_" + m.id, model := m.model,
           counts := t.counts.(messageId := "resp_" + m.id, model := m.model, input := m.input,
                               cacheCreation := m.cacheCreation, cacheRead := m.cacheRead))
    else if e.kind == "content_block_stop" then t.(part := t.part + 1)
    else if e.kind == "message_delta" then
      match c.decodeUsage(e.data)
      case None => t
      case Some(n) => t.(counts := t.counts.(output := n))
    else if e.kind == "message_stop" then t.(item := t.item + 1, part := 0)
    else t
  }

  /** The text of an upstream text_delta event; empty for every other event. */
  function TextOf(c: Codec, e: SseEvent): string {
    if e.kind == "content_block_delta" then
      match c.decodeBlockDelta(e.data)
      case None => ""
      case Some(d) => if d.kind == "text_delta" then d.text else ""
    else ""
  }

  /** The closing event: id, model and usage as counted so far. */
  function CompletionOf(t: Translation): Payload {
    Completed(t.responseId, t.model, t.counts.input, t.counts.output, t.counts.input + t.counts.output)
  }

  /** translateAnthropicSSEEvent: the payloads written, in the state before the event. */
  function Written(c: Codec, t: Translation, e: SseEvent): seq<Payload> {
    if e.kind == "message_start" then
      match c.decodeStart(e.data)
      case None => []
      case Some(m) => [Created("resp_" + m.id, m.model), InProgress("resp_" + m.id, m.model)]
    else if e.kind == "content_block_start" then [ItemAdded(t.item), PartAdded(t.item, t.part)]
    else if e.kind == "content_block_delta" then
      if TextOf(c, e) != "" then [TextDelta(t.item, t.part, TextOf(c, e))] else []
    else if e.kind == "content_block_stop" then [TextDone(t.item, t.part), PartDone(t.item, t.part)]
    else if e.kind == "message_stop" then
      [ItemDone(t.item), CompletionOf(t)]
    else []
  }

  // ---------------------------------------------------------------- whole streams

  function ParseAnthropicAll(c: Codec, es: seq<SseEvent>): TokenCounts {
    if es == [] then NO_COUNTS else ParseAnthropic(c, ParseAnthropicAll(c, es[..|es| - 1]), es[|es| - 1])
  }

  function ParseResponsesAll(c: Codec, es: seq<SseEvent>): TokenCounts {
    if es == [] then NO_COUNTS else ParseResponses(c, ParseResponsesAll(c, es[..|es| - 1]), es[|es| - 1])
  }

  function TranslateAll(c: Codec, es: seq<SseEvent>): Translation {
    if es == [] then FRESH else Translate(c, TranslateAll(c, es[..|es| - 1]), es[|es| - 1])
  }

  function WrittenAll(c: Codec, es: seq<SseEvent>): seq<Payload> {
    if es == [] then [] else WrittenAll(c, es[..|es| - 1]) + Written(c, TranslateAll(c, es[..|es| - 1]), es[|es| - 1])
  }

  /** Total length of the upstream text deltas. */
  function TextBytes(c: Codec, es: seq<SseEvent>): int {
    if es == [] then 0 else TextBytes(c, es[..|es| - 1]) + |TextOf(c, es[|es| - 1])|
  }

  /** All events of a stream, an unterminated last one included. */
  function AllEvents(lines: seq<string>): seq<SseEvent> {
    Terminated(lines) + Leftover(lines)
  }

  // ---------------------------------------------------------------- the loops

  /** ParseSSE: forwards every line and counts; an unterminated last event is not looked at. */
  method ParseSse(c: Codec, body: string) returns (counts: TokenCounts, forwarded: string)
    ensures counts == ParseAnthropicAll(c, Terminated(SplitLines(body)))
    ensures forwarded == Unlines(SplitLines(body))
  {
    hide Step, Dispatch, ParseAnthropic, SplitLines;
    var lines := SplitLines(body);
    counts, forwarded := NO_COUNTS, "";
    var reader := START;
    for i := 0 to |lines|
      invariant reader == ReaderAfter(START, lines[..i])
      invariant counts == ParseAnthropicAll(c, Terminated(lines[..i]))
      invariant forwarded == Unlines(lines[..i])
    {
      assert lines[..i + 1] == lines[..i] + [lines[i]];
      FeedOne(START, lines[..i], lines[i]);
      forwarded := forwarded + lines[i] + "\n";
      var done := Dispatch(reader, lines[i]);
      DispatchAtMostOne(reader, lines[i]);
      ghost var es := Terminated(lines[..i]);
      assert Terminated(lines[..i + 1]) == es + done;
      if |done| > 0 {
        counts := ParseAnthropic(c, counts, done[0]);
        assert (es + done)[..|es|] == es;
      } else {
        assert es + done == es;
      }
      reader := Step(reader, lines[i]);
    }
    assert lines[..|lines|] == lines;
  }

  lemma DispatchAtMostOne(r: Reader, line: string)
    ensures |Dispatch(r, line)| <= 1
  {}

  /** ParseOpenAIResponsesSSE: like ParseSse, but a last event without a blank line is counted too. */
  method ParseResponsesSse(c: Codec, body: string) returns (counts: TokenCounts, forwarded: string)
    ensures counts == ParseResponsesAll(c, AllEvents(SplitLines(body)))
    ensures forwarded == Unlines(SplitLines(body))
  {
    hide Step, Dispatch, ParseResponses, SplitLines, Pending;
    var lines := SplitLines(body);
    counts, forwarded := NO_COUNTS, "";
    var reader := START;
    for i := 0 to |lines|
      invariant reader == ReaderAfter(START, lines[..i])
      invariant counts == ParseResponsesAll(c, Terminated(lines[..i]))
      invariant forwarded == Unlines(lines[..i])
    {
      assert lines[..i + 1] == lines[..i] + [lines[i]];
      FeedOne(START, lines[..i], lines[i]);
      forwarded := forwarded + lines[i] + "\n";
      var done := Dispatch(reader, lines[i]);
      DispatchAtMostOne(reader, lines[i]);
      ghost var es := Terminated(lines[..i]);
      assert Terminated(lines[..i + 1]) == es + done;
      if |done| > 0 {
        counts := ParseResponses(c, counts, done[0]);
        assert (es + done)[..|es|] == es;
      } else {
        assert es + done == es;
      }
      reader := Step(reader, lines[i]);
    }
    assert lines[..|lines|] == lines;
    var rest := Pending(reader);
    PendingAtMostOne(reader);
    if |rest| > 0 {
      counts := ParseResponses(c, counts, rest[0]);
      assert AllEvents(lines)[..|Terminated(lines)|] == Terminated(lines);
    } else {
      assert AllEvents(lines) == Terminated(lines);
    }
  }

  lemma PendingAtMostOne(r: Reader)
    ensures |Pending(r)| <= 1
  {}

  /** TranslateAnthropicSSEToResponses: the counts it returns and the text it writes. */
  method TranslateSse(c: Codec, body: string) returns (counts: TokenCounts, output: string)
    ensures counts == TranslateAll(c, AllEvents(SplitLines(body))).counts
    ensures output == PrintAll(EmitAll(c, WrittenAll(c, AllEvents(SplitLines(body)))))
  {
    hide Step, Dispatch, Translate, SplitLines, Pending, TranslateAll, WrittenAll, EmitAll, PrintAll;
    NothingYet(c);
    var lines := SplitLines(body);
    output := "";
    var t, reader := FRESH, START;
    for i := 0 to |lines|
      invariant reader == ReaderAfter(START, lines[..i])
      invariant t == TranslateAll(c, Terminated(lines[..i]))
      invariant output == PrintAll(EmitAll(c, WrittenAll(c, Terminated(lines[..i]))))
    {
      assert lines[..i + 1] == lines[..i] + [lines[i]];
      FeedOne(START, lines[..i], lines[i]);
      var done := Dispatch(reader, lines[i]);
      DispatchAtMostOne(reader, lines[i]);
      ghost var es := Terminated(lines[..i]);
      assert Terminated(lines[..i + 1]) == es + done;
      if |done| > 0 {
        output := WriteEvent(c, t, done[0], es, output);
        t := Translate(c, t, done[0]);
        TranslateOneMore(c, es, done[0]);
        assert es + done == es + [done[0]];
      } else {
        assert es + done == es;
      }
      reader := Step(reader, lines[i]);
    }
    assert lines[..|lines|] == lines;
    var rest := Pending(reader);
    PendingAtMostOne(reader);
    if |rest| > 0 {
      output := WriteEvent(c, t, rest[0], Terminated(lines), output);
      t := Translate(c, t, rest[0]);
      TranslateOneMore(c, Terminated(lines), rest[0]);
      assert AllEvents(lines) == Terminated(lines) + [rest[0]];
    } else {
      assert AllEvents(lines) == Terminated(lines);
    }
    counts := t.counts;
  }

  lemma NothingYet(c: Codec)
    ensures TranslateAll(c, []) == FRESH && PrintAll(EmitAll(c, WrittenAll(c, []))) == ""
  {}

  lemma TranslateOneMore(c: Codec, es: seq<SseEvent>, e: SseEvent)
    ensures TranslateAll(c, es + [e]) == Translate(c, TranslateAll(c, es), e)
  {
    assert (es + [e])[..|es|] == es;
  }

  /** Writes the payloads of one event after what is already written. */
  method WriteEvent(c: Codec, t: Translation, e: SseEvent, ghost es: seq<SseEvent>, output: string) returns (output': string)
    requires t == TranslateAll(c, es) && output == PrintAll(EmitAll(c, WrittenAll(c, es)))
    ensures output' == PrintAll(EmitAll(c, WrittenAll(c, es + [e])))
  {
    hide Written, Translate, Print, KindOf;
    var ps := Written(c, t, e);
    ghost var before := WrittenAll(c, es);
    assert (es + [e])[..|es|] == es;
    output' := output;
    assert before + ps[..0] == before;
    for i := 0 to |ps|
      invariant output' == PrintAll(EmitAll(c, before + ps[..i]))
    {
      EmitOneMore(c, before + ps[..i], ps[i]);
      assert before + ps[..i + 1] == before + ps[..i] + [ps[i]];
      output' := output' + Print(Emit(c, ps[i]));
    }
    assert ps[..|ps|] == ps;
  }

  lemma EmitOneMore(c: Codec, ps: seq<Payload>, p: Payload)
    ensures EmitAll(c, ps + [p]) == EmitAll(c, ps) + [Emit(c, p)]
    ensures PrintAll(EmitAll(c, ps + [p])) == PrintAll(EmitAll(c, ps)) + Print(Emit(c, p))
  {
    assert (ps + [p])[..|ps|] == ps;
    PrintOneMore(EmitAll(c, ps), Emit(c, p));
  }

  lemma {:induction false} PrintOneMore(es: seq<SseEvent>, e: SseEvent)
    ensures PrintAll(es + [e]) == PrintAll(es) + Print(e)
  {
    hide Print;
    if es == [] {
      assert [] + [e] == [e] && [e][1..] == [];
      assert PrintAll([e]) == Print(e) + PrintAll([]);
    } else {
      PrintOneMore(es[1..], e);
      assert (es + [e])[1..] == es[1..] + [e];
    }
  }

  // ---------------------------------------------------------------- what the output says

  /** Counts recoverable from the output: totals as of the last message_stop, and all text. */
  function Recoverable(c: Codec, es: seq<SseEvent>): TokenCounts {
    if es == [] then NO_COUNTS
    else
      var n := |es| - 1;
      var r := Recoverable(c, es[..n]);
      var t := TranslateAll(c, es[..n]);
      var e := es[n];
      if e.kind == "message_stop" then
        r.(messageId := t.responseId, model := t.model, input := t.counts.input, output := t.counts.output)
      else r.(textBytes := r.textBytes + |TextOf(c, e)|)
  }

  lemma ParseTwo(c: Codec, es: seq<SseEvent>, e: SseEvent)
    ensures ParseResponsesAll(c, es + [e]) == ParseResponses(c, ParseResponsesAll(c, es), e)
  {
    assert (es + [e])[..|es|] == es;
  }

  /** The Responses parser on one emitted payload. */
  lemma ParseEmitted(c: Codec, counts: TokenCounts, p: Payload)
    requires Faithful(c) && Carriable(c, p)
    ensures ParseResponses(c, counts, Emit(c, p)) ==
            match p
            case TextDelta(_, _, d) => counts.(textBytes := counts.textBytes + |d|)
            case Completed(id, m, i, o, _) => counts.(messageId := id, model := m, input := i, output := o)
            case _ => counts
  {
    KindsTellApart(p);
    hide KindOf;
  }

  /** The events the translator's output contains, one payload at a time. */
  lemma ParseOneMore(c: Codec, ps: seq<Payload>, p: Payload)
    requires Faithful(c) && Carriable(c, p)
    ensures ParseResponsesAll(c, EmitAll(c, ps + [p])) ==
            var counts := ParseResponsesAll(c, EmitAll(c, ps));
            match p
            case TextDelta(_, _, d) => counts.(textBytes := counts.textBytes + |d|)
            case Completed(id, m, i, o, _) => counts.(messageId := id, model := m, input := i, output := o)
            case _ => counts
  {
    hide ParseResponses, KindOf, Print, Faithful;
    EmitOneMore(c, ps, p);
    ParseTwo(c, EmitAll(c, ps), Emit(c, p));
    ParseEmitted(c, ParseResponsesAll(c, EmitAll(c, ps)), p);
  }

  /** At most two payloads per event; text and completion only where they belong. */
  lemma WrittenShape(c: Codec, t: Translation, e: SseEvent)
    ensures var ws := Written(c, t, e);
            && |ws| <= 2
            && (e.kind == "message_stop" ==> TextOf(c, e) == "" && ws == [ItemDone(t.item), CompletionOf(t)])
            && (TextOf(c, e) != "" ==> ws == [TextDelta(t.item, t.part, TextOf(c, e))])
            && (e.kind != "message_stop" && TextOf(c, e) == "" ==> forall i :: 0 <= i < |ws| ==> !ws[i].TextDelta? && !ws[i].Completed?)
  {}

  /** Everything the translator writes can be read back. */
  lemma {:induction false} WritesText(c: Codec, es: seq<SseEvent>)
    requires Faithful(c)
    ensures var t := TranslateAll(c, es); c.text(t.responseId) && c.text(t.model)
  {
    if es != [] {
      WritesText(c, es[..|es| - 1]);
    }
  }

  lemma WrittenCarriable(c: Codec, t: Translation, e: SseEvent)
    requires Faithful(c) && c.text(t.responseId) && c.text(t.model)
    ensures forall i :: 0 <= i < |Written(c, t, e)| ==> Carriable(c, Written(c, t, e)[i])
  {}

  /** What the payloads of one upstream event do to the parsed counts. */
  lemma ParseWritten(c: Codec, ps: seq<Payload>, t: Translation, e: SseEvent)
    requires Faithful(c) && c.text(t.responseId) && c.text(t.model)
    ensures ParseResponsesAll(c, EmitAll(c, ps + Written(c, t, e))) ==
            var counts := ParseResponsesAll(c, EmitAll(c, ps));
            if e.kind == "message_stop" then
              counts.(messageId := t.responseId, model := t.model, input := t.counts.input, output := t.counts.output)
            else counts.(textBytes := counts.textBytes + |TextOf(c, e)|)
  {
    hide ParseResponsesAll, EmitAll, Faithful, Written, TextOf, Carriable;
    var ws := Written(c, t, e);
    WrittenShape(c, t, e);
    WrittenCarriable(c, t, e);
    if |ws| == 0 {
      assert ps + ws == ps;
    } else if |ws| == 1 {
      assert ps + ws == ps + [ws[0]];
      ParseOneMore(c, ps, ws[0]);
    } else {
      assert ps + ws == (ps + [ws[0]]) + [ws[1]];
      ParseOneMore(c, ps, ws[0]);
      ParseOneMore(c, ps + [ws[0]], ws[1]);
    }
  }

  lemma {:induction false} OutputCarriesCounts(c: Codec, es: seq<SseEvent>)
    requires Faithful(c)
    ensures ParseResponsesAll(c, EmitAll(c, WrittenAll(c, es))) == Recoverable(c, es)
  {
    if es != [] {
      var n := |es| - 1;
      OutputCarriesCounts(c, es[..n]);
      WritesText(c, es[..n]);
      hide Written, Translate, TextOf, Faithful;
      ParseWritten(c, WrittenAll(c, es[..n]), TranslateAll(c, es[..n]), es[n]);
    }
  }

  lemma {:induction false} EmittedClean(c: Codec, ps: seq<Payload>)
    requires Faithful(c)
    ensures forall i :: 0 <= i < |EmitAll(c, ps)| ==> CleanEvent(EmitAll(c, ps)[i])
  {
    if ps != [] {
      EmittedClean(c, ps[..|ps| - 1]);
      KindsTellApart(ps[|ps| - 1]);
    }
  }

  /**
   * The Responses parser, fed the bytes the translator wrote for any upstream body, recovers
   * exactly the totals as of the last message_stop and the length of all upstream text.
   */
  lemma TranslatedOutputRecovers(c: Codec, body: string)
    requires Faithful(c)
    ensures var es := AllEvents(SplitLines(body));
            var output := PrintAll(EmitAll(c, WrittenAll(c, es)));
            ParseResponsesAll(c, AllEvents(SplitLines(output))) == Recoverable(c, es)
  {
    hide SplitLines, Terminated, Leftover, Faithful;
    var es := AllEvents(SplitLines(body));
    var out := EmitAll(c, WrittenAll(c, es));
    EmittedClean(c, WrittenAll(c, es));
    PrintReadRoundTrip(out);
    assert out + [] == out;
    OutputCarriesCounts(c, es);
  }

  lemma {:induction false} IdsTracked(c: Codec, es: seq<SseEvent>)
    ensures var t := TranslateAll(c, es);
            t.counts.messageId == t.responseId && t.counts.model == t.model && t.counts.textBytes == 0
    ensures Recoverable(c, es).textBytes == TextBytes(c, es)
  {
    if es != [] {
      IdsTracked(c, es[..|es| - 1]);
      assert es[|es| - 1].kind == "message_stop" ==> TextOf(c, es[|es| - 1]) == "";
    }
  }

  /**
   * For an upstream stream ending in message_stop, the parser recovers the translator's own
   * message id, model, input and output tokens, and the total text length.
   */
  lemma StoppedStreamRoundTrip(c: Codec, body: string)
    requires Faithful(c)
    requires var es := AllEvents(SplitLines(body)); es != [] && es[|es| - 1].kind == "message_stop"
    ensures var es := AllEvents(SplitLines(body));
            var own := TranslateAll(c, es).counts;
            var output := PrintAll(EmitAll(c, WrittenAll(c, es)));
            var parsed := ParseResponsesAll(c, AllEvents(SplitLines(output)));
            && parsed.messageId == own.messageId && parsed.model == own.model
            && parsed.input == own.input && parsed.output == own.output
            && parsed.textBytes == TextBytes(c, es)
  {
    hide SplitLines, AllEvents, Faithful;
    var es := AllEvents(SplitLines(body));
    TranslatedOutputRecovers(c, body);
    IdsTracked(c, es);
    IdsTracked(c, es[..|es| - 1]);
  }

  // ---------------------------------------------------------------- pass-through and translation agree

  /** Same model and token counts; the message id differs by the "resp_" prefix, if one was seen. */
  ghost predicate Agree(a: TokenCounts, t: TokenCounts) {
    && a.model == t.model && a.input == t.input && a.output == t.output
    && a.cacheCreation == t.cacheCreation && a.cacheRead == t.cacheRead
    && (t.messageId == "resp_" + a.messageId || (t.messageId == "" && a.messageId == ""))
  }

  const NO_START := MessageStart("", "", 0, 0, 0)

  /** The last message_start that decodes. */
  function LastStart(c: Codec, es: seq<SseEvent>): MessageStart {
    if es == [] then NO_START
    else
      var e := es[|es| - 1];
      if e.kind == "message_start" && c.decodeStart(e.data).Some? then c.decodeStart(e.data).value
      else LastStart(c, es[..|es| - 1])
  }

  /** The output tokens of the last message_delta that decodes. */
  function LastUsage(c: Codec, es: seq<SseEvent>): int {
    if es == [] then 0
    else
      var e := es[|es| - 1];
      if e.kind == "message_delta" && c.decodeUsage(e.data).Some? then c.decodeUsage(e.data).value
      else LastUsage(c, es[..|es| - 1])
  }

  /** An event whose counts ParseSSE can read: one with a counted kind must have a plain type. */
  predicate Readable(c: Codec, e: SseEvent) {
    e.kind == "message_start" || e.kind == "message_delta" ==> c.plainType(e.data)
  }

  function ReadableOf(c: Codec, es: seq<SseEvent>): seq<SseEvent> {
    if es == [] then []
    else ReadableOf(c, es[..|es| - 1]) + (if Readable(c, es[|es| - 1]) then [es[|es| - 1]] else [])
  }

  predicate AllReadable(c: Codec, es: seq<SseEvent>) {
    forall i :: 0 <= i < |es| ==> Readable(c, es[i])
  }

  /** Two streams end with the same message_start and the same usage. */
  predicate SameTotals(c: Codec, es: seq<SseEvent>, fs: seq<SseEvent>) {
    LastStart(c, es) == LastStart(c, fs) && LastUsage(c, es) == LastUsage(c, fs)
  }

  /** What ParseSSE counts, without the order of events: the last readable start and usage. */
  lemma {:induction false} ParsedTotals(c: Codec, es: seq<SseEvent>)
    requires TypedTargets(c)
    ensures var m := LastStart(c, ReadableOf(c, es));
            ParseAnthropicAll(c, es) == TokenCounts(m.input, LastUsage(c, ReadableOf(c, es)), m.cacheCreation, m.cacheRead, m.id, m.model, 0)
  {
    if es != [] {
      var n := |es| - 1;
      ParsedTotals(c, es[..n]);
      if Readable(c, es[n]) {
        LastOf(c, ReadableOf(c, es[..n]), es[n]);
      } else {
        assert ReadableOf(c, es) == ReadableOf(c, es[..n]);
      }
    }
  }

  lemma LastOf(c: Codec, es: seq<SseEvent>, e: SseEvent)
    ensures LastStart(c, es + [e]) ==
            if e.kind == "message_start" && c.decodeStart(e.data).Some? then c.decodeStart(e.data).value else LastStart(c, es)
    ensures LastUsage(c, es + [e]) ==
            if e.kind == "message_delta" && c.decodeUsage(e.data).Some? then c.decodeUsage(e.data).value else LastUsage(c, es)
  {
    assert (es + [e])[..|es|] == es;
  }

  /** What the translator counts: the last start and usage of all. */
  lemma {:induction false} TranslatedTotals(c: Codec, es: seq<SseEvent>)
    ensures var m, t := LastStart(c, es), TranslateAll(c, es).counts;
            && t == TokenCounts(m.input, LastUsage(c, es), m.cacheCreation, m.cacheRead, t.messageId, m.model, 0)
            && (t.messageId == "resp_" + m.id || (t.messageId == "" && m == NO_START))
  {
    if es != [] {
      TranslatedTotals(c, es[..|es| - 1]);
    }
  }

  /**
   * What ParseSSE counts of some events and what the translator counts of some events agree if and
   * only if the readable ones of the former end with the totals of the latter.
   */
  lemma TotalsDecide(c: Codec, seen: seq<SseEvent>, all: seq<SseEvent>)
    requires TypedTargets(c)
    ensures Agree(ParseAnthropicAll(c, seen), TranslateAll(c, all).counts) <==> SameTotals(c, ReadableOf(c, seen), all)
  {
    hide TypedTargets, ParseAnthropicAll, TranslateAll, LastStart, LastUsage, ReadableOf;
    ParsedTotals(c, seen);
    TranslatedTotals(c, all);
    assert forall x: string :: ("resp_" + x)[5..] == x && "resp_" + x != "";
  }

  lemma {:induction false} NothingUnreadable(c: Codec, es: seq<SseEvent>)
    requires AllReadable(c, es)
    ensures ReadableOf(c, es) == es
  {
    if es != [] {
      NothingUnreadable(c, es[..|es| - 1]);
    }
  }

  /** On the same events, pass-through and translation count the same if ParseSSE can read them all. */
  lemma SameEventsAgree(c: Codec, es: seq<SseEvent>)
    requires TypedTargets(c)
    ensures Agree(ParseAnthropicAll(c, es), TranslateAll(c, es).counts) <==> SameTotals(c, ReadableOf(c, es), es)
    ensures AllReadable(c, es) ==> Agree(ParseAnthropicAll(c, es), TranslateAll(c, es).counts)
  {
    hide TypedTargets, ParseAnthropicAll, TranslateAll, LastStart, LastUsage, ReadableOf, AllReadable, Agree;
    TotalsDecide(c, es, es);
    if AllReadable(c, es) { NothingUnreadable(c, es); }
  }

  /** The counts determine, up to the prefix, what agrees with them. */
  lemma AgreeUnique(a: TokenCounts, b: TokenCounts, t: TokenCounts)
    requires Agree(b, t) && a.textBytes == b.textBytes
    ensures Agree(a, t) <==> a == b
  {
    assert forall x: string :: ("resp_" + x)[5..] == x && "resp_" + x != "";
  }

  /**
   * On any body: ParseSSE and the translator agree if and only if the last message_start and the last
   * message_delta the translator decodes carry what the last ones do that are ended by a blank line
   * and have a plain type.
   */
  lemma PassThroughAgreesIff(c: Codec, body: string)
    requires TypedTargets(c)
    ensures var lines := SplitLines(body);
            Agree(ParseAnthropicAll(c, Terminated(lines)), TranslateAll(c, AllEvents(lines)).counts)
            <==> SameTotals(c, ReadableOf(c, Terminated(lines)), AllEvents(lines))
  {
    hide TypedTargets, ParseAnthropicAll, TranslateAll, SameTotals, ReadableOf, Agree, SplitLines, Terminated, AllEvents;
    TotalsDecide(c, Terminated(SplitLines(body)), AllEvents(SplitLines(body)));
  }

  /**
   * With plain types throughout they agree exactly on the bodies whose unterminated last event, if
   * any, would have changed no count; ended with a blank line first, they agree on all of these.
   */
  lemma PassThroughAgrees(c: Codec, body: string)
    requires TypedTargets(c)
    ensures var lines := SplitLines(body);
            var seen, rest := ParseAnthropicAll(c, Terminated(lines)), Leftover(lines);
            AllReadable(c, AllEvents(lines)) ==>
              && (Agree(seen, TranslateAll(c, AllEvents(lines)).counts)
                  <==> rest == [] || ParseAnthropic(c, seen, rest[0]) == seen)
              && Agree(ParseAnthropicAll(c, Terminated(lines + [""])), TranslateAll(c, AllEvents(lines)).counts)
  {
    var lines := SplitLines(body);
    hide SplitLines, TranslateAll, Agree, EventsFrom, Step, TypedTargets, AllReadable, SameTotals, ReadableOf;
    var es, rest := Terminated(lines), Leftover(lines);
    PendingAtMostOne(ReaderAfter(START, lines));
    FeedOne(START, lines, "");
    SameEventsAgree(c, es + rest);
    assert rest != [] ==> rest == [rest[0]] && (es + rest)[..|es|] == es;
    assert rest == [] ==> es + rest == es;
    ParsedNoText(c, es);
    ParsedNoText(c, es + rest);
    if Agree(ParseAnthropicAll(c, es + rest), TranslateAll(c, es + rest).counts) {
      AgreeUnique(ParseAnthropicAll(c, es), ParseAnthropicAll(c, es + rest), TranslateAll(c, es + rest).counts);
    }
  }

  lemma ParsedNoText(c: Codec, es: seq<SseEvent>)
    requires TypedTargets(c)
    ensures ParseAnthropicAll(c, es).textBytes == 0
  {
    hide TypedTargets, ParseAnthropicAll;
    ParsedTotals(c, es);
  }

  /** A message_start whose type is not text: the translator counts it and the pass-through parser does not. */
  lemma MistypedStartDisagrees(c: Codec, data: string, m: MessageStart)
    requires TypedTargets(c) && Clean(data) && c.decodeStart(data) == Some(m) && m != NO_START && !c.plainType(data)
    ensures var lines := SplitLines(Print(SseEvent("message_start", data)));
            !Agree(ParseAnthropicAll(c, Terminated(lines)), TranslateAll(c, AllEvents(lines)).counts)
  {
    hide Print, Terminated, Leftover, SplitLines, ParseAnthropicAll, TranslateAll, TypedTargets;
    var e := SseEvent("message_start", data);
    assert |e.kind| == 13 && e.kind[0] == 'm' && e.kind[12] == 't';
    assert CleanEvent(e);
    PrintReadRoundTrip([e]);
    assert [e][1..] == [] && Print(e) + "" == Print(e);
    assert PrintAll([e]) == Print(e);
    assert [e] + [] == [e] && [e][..0] == [];
    TotalsDecide(c, [e], [e]);
    assert ReadableOf(c, [e]) == [];
  }

  /** Disagreement does happen: an unterminated message_delta is counted by one and not the other. */
  lemma UnterminatedDeltaDisagrees(c: Codec, data: string, n: int)
    requires Clean(data) && c.decodeUsage(data) == Some(n) && n != 0
    ensures var lines := [EventLine("message_delta"), DataLine(data)];
            !Agree(ParseAnthropicAll(c, Terminated(lines)), TranslateAll(c, AllEvents(lines)).counts)
  {
    hide EventLine, DataLine, Terminated, Leftover, ParseAnthropicAll, TranslateAll;
    var e := SseEvent("message_delta", data);
    assert |e.kind| == 13 && e.kind[0] == 'm' && e.kind[12] == 'a';
    Unterminated(e);
    assert [] + [e] == [e];
    DeltaCounted(c, e, n);
  }

  lemma DeltaCounted(c: Codec, e: SseEvent, n: int)
    requires e.kind == "message_delta" && c.decodeUsage(e.data) == Some(n)
    ensures ParseAnthropicAll(c, []).output == 0 && TranslateAll(c, [e]).counts.output == n
  {
    assert [e][..0] == [];
    assert TranslateAll(c, [e]) == Translate(c, TranslateAll(c, []), e);
  }
}
