/**
 * The events a client of the translated stream sees, told from the upstream events alone: which
 * events each of them causes, with indices that count message_stop and content_block_stop events, and
 * how text is enclosed by the events that open and close its content part.
 */
module StreamGrammar {
  import opened Basics
  import opened EventStream
  import opened SseTranslator

  // ---------------------------------------------------------------- counting upstream events

  /** The number of message_stop events. */
  function Stops(es: seq<SseEvent>): nat {
    if es == [] then 0 else Stops(es[..|es| - 1]) + (if es[|es| - 1].kind == "message_stop" then 1 else 0)
  }

  /** The number of content_block_stop events since the last message_stop. */
  function PartsSince(es: seq<SseEvent>): nat {
    if es == [] || es[|es| - 1].kind == "message_stop" then 0
    else PartsSince(es[..|es| - 1]) + (if es[|es| - 1].kind == "content_block_stop" then 1 else 0)
  }

  /** Some message_start among the events decodes. */
  predicate Started(c: Codec, es: seq<SseEvent>) {
    exists i :: 0 <= i < |es| && es[i].kind == "message_start" && c.decodeStart(es[i].data).Some?
  }

  function ResponseId(c: Codec, es: seq<SseEvent>): string {
    if Started(c, es) then "resp_" + LastStart(c, es).id else ""
  }

  lemma {:induction false} StateCounts(c: Codec, es: seq<SseEvent>)
    ensures var t := TranslateAll(c, es);
            && t.item == Stops(es) && t.part == PartsSince(es)
            && t.responseId == ResponseId(c, es) && t.model == LastStart(c, es).model
            && t.counts.input == LastStart(c, es).input && t.counts.output == LastUsage(c, es)
  {
    if es != [] {
      var n := |es| - 1;
      StateCounts(c, es[..n]);
      StartedNext(c, es);
      if !Started(c, es) { NeverStarted(c, es); }
      if !Started(c, es[..n]) { NeverStarted(c, es[..n]); }
    }
  }

  lemma StartedNext(c: Codec, es: seq<SseEvent>)
    requires es != []
    ensures var e := es[|es| - 1];
            Started(c, es) <==> Started(c, es[..|es| - 1]) || (e.kind == "message_start" && c.decodeStart(e.data).Some?)
  {
    var n := |es| - 1;
    if i :| 0 <= i < |es| && es[i].kind == "message_start" && c.decodeStart(es[i].data).Some? {
      assert i < n ==> es[..n][i] == es[i];
    }
    if i :| 0 <= i < n && es[..n][i].kind == "message_start" && c.decodeStart(es[..n][i].data).Some? {
      assert es[i] == es[..n][i];
    }
  }

  lemma {:induction false} NeverStarted(c: Codec, es: seq<SseEvent>)
    requires !Started(c, es)
    ensures LastStart(c, es) == NO_START
  {
    if es != [] {
      StartedNext(c, es);
      NeverStarted(c, es[..|es| - 1]);
    }
  }

  // ---------------------------------------------------------------- what each upstream event causes

  /** The events caused by upstream event e after the events es. */
  function Caused(c: Codec, es: seq<SseEvent>, e: SseEvent): seq<SseEvent> {
    var item, part := Stops(es), PartsSince(es);
    match e.kind
    case "message_start" =>
      (match c.decodeStart(e.data)
       case None => []
       case Some(m) =>
         [SseEvent("response.created", c.encode(Created("resp_" + m.id, m.model))),
          SseEvent("response.in_progress", c.encode(InProgress("resp_" + m.id, m.model)))])
    case "content_block_start" =>
      [SseEvent("response.output_item.added", c.encode(ItemAdded(item))),
       SseEvent("response.content_part.added", c.encode(PartAdded(item, part)))]
    case "content_block_delta" =>
      (match c.decodeBlockDelta(e.data)
       case None => []
       case Some(d) =>
         if d.kind == "text_delta" && d.text != "" then [SseEvent("response.output_text.delta", c.encode(TextDelta(item, part, d.text)))] else [])
    case "content_block_stop" =>
      [SseEvent("response.output_text.done", c.encode(TextDone(item, part))),
       SseEvent("response.content_part.done", c.encode(PartDone(item, part)))]
    case "message_stop" =>
      (var m, output := LastStart(c, es), LastUsage(c, es);
       [SseEvent("response.output_item.done", c.encode(ItemDone(item))),
        SseEvent("response.completed", c.encode(Completed(ResponseId(c, es), m.model, m.input, output, m.input + output)))])
    case _ => []
  }

  function CausedByAll(c: Codec, es: seq<SseEvent>): seq<SseEvent> {
    if es == [] then [] else CausedByAll(c, es[..|es| - 1]) + Caused(c, es[..|es| - 1], es[|es| - 1])
  }

  lemma WrittenIsCaused(c: Codec, es: seq<SseEvent>, e: SseEvent)
    ensures EmitAll(c, Written(c, TranslateAll(c, es), e)) == Caused(c, es, e)
  {
    StateCounts(c, es);
    hide TranslateAll, Stops, PartsSince, ResponseId, LastStart, LastUsage;
    var ws := Written(c, TranslateAll(c, es), e);
    EmitShort(c, ws);
  }

  lemma EmitShort(c: Codec, ws: seq<Payload>)
    ensures EmitAll(c, []) == []
    ensures |ws| == 1 ==> EmitAll(c, ws) == [Emit(c, ws[0])]
    ensures |ws| == 2 ==> EmitAll(c, ws) == [Emit(c, ws[0]), Emit(c, ws[1])]
  {
    hide Emit;
    if |ws| >= 1 && |ws| <= 2 {
      assert ws[..1][..0] == [] && EmitAll(c, ws[..1]) == [Emit(c, ws[0])];
      assert |ws| == 1 ==> ws == ws[..1];
    }
  }

  lemma {:induction false} EmitConcat(c: Codec, ps: seq<Payload>, ws: seq<Payload>)
    ensures EmitAll(c, ps + ws) == EmitAll(c, ps) + EmitAll(c, ws)
  {
    hide Emit;
    if ws == [] {
      assert ps + ws == ps;
    } else {
      var n := |ws| - 1;
      EmitConcat(c, ps, ws[..n]);
      assert (ps + ws)[..|ps + ws| - 1] == ps + ws[..n];
    }
  }

  lemma {:induction false} OutputIsCaused(c: Codec, es: seq<SseEvent>)
    ensures EmitAll(c, WrittenAll(c, es)) == CausedByAll(c, es)
  {
    hide Written, Caused, TranslateAll, Emit;
    if es != [] {
      var n := |es| - 1;
      OutputIsCaused(c, es[..n]);
      WrittenIsCaused(c, es[..n], es[n]);
      EmitConcat(c, WrittenAll(c, es[..n]), Written(c, TranslateAll(c, es[..n]), es[n]));
    }
  }

  /**
   * For every upstream body, a client that reads the translator's bytes sees exactly the events its
   * upstream events cause, in order.
   */
  lemma ClientSees(c: Codec, body: string)
    requires Faithful(c)
    ensures var es := AllEvents(SplitLines(body));
            AllEvents(SplitLines(PrintAll(EmitAll(c, WrittenAll(c, es))))) == CausedByAll(c, es)
  {
    hide SplitLines, Terminated, Leftover, Faithful, Caused, Written, TranslateAll;
    var es := AllEvents(SplitLines(body));
    var out := EmitAll(c, WrittenAll(c, es));
    EmittedClean(c, WrittenAll(c, es));
    PrintReadRoundTrip(out);
    assert out + [] == out;
    OutputIsCaused(c, es);
  }

  // ---------------------------------------------------------------- nesting

  /** A content block is open after the events, which open and close blocks one at a time. */
  predicate Open(es: seq<SseEvent>) {
    es != [] &&
    match es[|es| - 1].kind
    case "content_block_start" => true
    case "content_block_stop" => false
    case _ => Open(es[..|es| - 1])
  }

  /** Blocks do not overlap, text comes inside blocks, and messages end outside. */
  predicate WellNested(c: Codec, es: seq<SseEvent>) {
    es == [] ||
    var before, e := es[..|es| - 1], es[|es| - 1];
    && WellNested(c, before)
    && (e.kind == "content_block_start" || e.kind == "message_stop" ==> !Open(before))
    && (e.kind == "content_block_stop" || TextOf(c, e) != "" ==> Open(before))
  }

  predicate Marks(p: Payload) { p.PartAdded? || p.TextDone? || p.PartDone? }

  /** Position a adds the part (item, part), and from there up to position b nothing is added or done. */
  ghost predicate AddedAt(ps: seq<Payload>, item: int, part: int, a: int, b: int) {
    0 <= a < b <= |ps| && ps[a] == PartAdded(item, part) && forall x :: a < x < b ==> !Marks(ps[x])
  }

  /** The text at position q lies between the events that add and finish its own part. */
  ghost predicate Enclosed(ps: seq<Payload>, q: int) {
    0 <= q < |ps| && ps[q].TextDelta? &&
    exists a, b :: a < q < b < |ps| && AddedAt(ps, ps[q].item, ps[q].part, a, b) && ps[b] == TextDone(ps[q].item, ps[q].part)
  }

  /** The text at position q belongs to the part that is still open. */
  ghost predicate StillOpen(ps: seq<Payload>, item: int, part: int, q: int) {
    0 <= q < |ps| && ps[q].TextDelta? && ps[q].item == item && ps[q].part == part &&
    exists a :: a < q && AddedAt(ps, item, part, a, |ps|)
  }

  ghost predicate Nested(ps: seq<Payload>, open: bool, item: int, part: int) {
    && (open ==> exists a :: AddedAt(ps, item, part, a, |ps|))
    && (forall q :: 0 <= q < |ps| && ps[q].TextDelta? ==> Enclosed(ps, q) || (open && StillOpen(ps, item, part, q)))
  }

  lemma EnclosedStays(ps: seq<Payload>, ws: seq<Payload>, q: int)
    requires Enclosed(ps, q)
    ensures Enclosed(ps + ws, q)
  {
    var a, b :| a < q < b < |ps| && AddedAt(ps, ps[q].item, ps[q].part, a, b) && ps[b] == TextDone(ps[q].item, ps[q].part);
    assert AddedAt(ps + ws, ps[q].item, ps[q].part, a, b);
  }

  lemma AddedStays(ps: seq<Payload>, ws: seq<Payload>, item: int, part: int, a: int)
    requires AddedAt(ps, item, part, a, |ps|) && forall x :: 0 <= x < |ws| ==> !Marks(ws[x])
    ensures AddedAt(ps + ws, item, part, a, |ps + ws|)
  {}

  /** Payloads that open and close nothing; text only into the open part. */
  lemma QuietNested(ps: seq<Payload>, ws: seq<Payload>, open: bool, item: int, part: int)
    requires Nested(ps, open, item, part) && forall x :: 0 <= x < |ws| ==> !Marks(ws[x])
    requires forall x :: 0 <= x < |ws| && ws[x].TextDelta? ==> open && ws[x].item == item && ws[x].part == part
    ensures Nested(ps + ws, open, item, part)
  {
    hide AddedAt;
    var all := ps + ws;
    if open {
      var a :| AddedAt(ps, item, part, a, |ps|);
      AddedStays(ps, ws, item, part, a);
      assert a < |ps| by { AddedBefore(ps, item, part, a); }
    }
    forall q | 0 <= q < |all| && all[q].TextDelta? ensures Enclosed(all, q) || (open && StillOpen(all, item, part, q)) {
      if q < |ps| {
        assert all[q] == ps[q];
        if Enclosed(ps, q) {
          EnclosedStays(ps, ws, q);
        } else {
          var a :| a < q && AddedAt(ps, item, part, a, |ps|);
          AddedStays(ps, ws, item, part, a);
        }
      } else {
        assert all[q] == ws[q - |ps|];
      }
    }
  }

  lemma AddedBefore(ps: seq<Payload>, item: int, part: int, a: int)
    requires AddedAt(ps, item, part, a, |ps|)
    ensures a < |ps|
  {}

  lemma OpenedNested(ps: seq<Payload>, item: int, part: int, i: int, j: int)
    requires Nested(ps, false, i, j)
    ensures Nested(ps + [ItemAdded(item), PartAdded(item, part)], true, item, part)
  {
    var ws := [ItemAdded(item), PartAdded(item, part)];
    var all := ps + ws;
    assert AddedAt(all, item, part, |ps| + 1, |all|);
    forall q | 0 <= q < |all| && all[q].TextDelta? ensures Enclosed(all, q) {
      assert q < |ps| && all[q] == ps[q];
      EnclosedStays(ps, ws, q);
    }
  }

  lemma ClosedNested(ps: seq<Payload>, item: int, part: int, i: int, j: int)
    requires Nested(ps, true, item, part)
    ensures Nested(ps + [TextDone(item, part), PartDone(item, part)], false, i, j)
  {
    hide AddedAt;
    var ws := [TextDone(item, part), PartDone(item, part)];
    var all := ps + ws;
    forall q | 0 <= q < |all| && all[q].TextDelta? ensures Enclosed(all, q) {
      assert q < |ps| && all[q] == ps[q];
      if Enclosed(ps, q) {
        EnclosedStays(ps, ws, q);
      } else {
        var a :| a < q && AddedAt(ps, item, part, a, |ps|);
        AddedUpTo(ps, ws, item, part, a);
        assert all[|ps|] == TextDone(item, part);
      }
    }
  }

  lemma AddedUpTo(ps: seq<Payload>, ws: seq<Payload>, item: int, part: int, a: int)
    requires AddedAt(ps, item, part, a, |ps|)
    ensures AddedAt(ps + ws, item, part, a, |ps|)
  {}

  lemma OneEventNested(c: Codec, ps: seq<Payload>, t: Translation, e: SseEvent, open: bool)
    requires Nested(ps, open, t.item, t.part)
    requires e.kind == "content_block_start" || e.kind == "message_stop" ==> !open
    requires e.kind == "content_block_stop" || TextOf(c, e) != "" ==> open
    ensures var t' := Translate(c, t, e);
            Nested(ps + Written(c, t, e), e.kind == "content_block_start" || (open && e.kind != "content_block_stop"), t'.item, t'.part)
  {
    hide Nested;
    var ws := Written(c, t, e);
    if e.kind == "content_block_start" {
      OpenedNested(ps, t.item, t.part, t.item, t.part);
    } else if e.kind == "content_block_stop" {
      ClosedNested(ps, t.item, t.part, t.item, t.part + 1);
    } else {
      QuietNested(ps, ws, open, t.item, t.part);
      if e.kind == "message_stop" { ClosedAnywhere(ps + ws, t.item, t.part, t.item + 1, 0); }
    }
  }

  lemma ClosedAnywhere(ps: seq<Payload>, i: int, j: int, item: int, part: int)
    requires Nested(ps, false, i, j)
    ensures Nested(ps, false, item, part)
  {}

  lemma {:induction false} OutputNested(c: Codec, es: seq<SseEvent>)
    requires WellNested(c, es)
    ensures Nested(WrittenAll(c, es), Open(es), TranslateAll(c, es).item, TranslateAll(c, es).part)
  {
    hide Nested, Written, Translate, TextOf;
    if es == [] {
      assert Nested([], false, 0, 0) by { NothingNested(); }
    } else {
      var n := |es| - 1;
      OutputNested(c, es[..n]);
      OneEventNested(c, WrittenAll(c, es[..n]), TranslateAll(c, es[..n]), es[n], Open(es[..n]));
    }
  }

  lemma NothingNested()
    ensures Nested([], false, 0, 0)
  {}

  /**
   * For every body whose blocks are well nested and closed at the end, every text delta the client
   * sees lies between the events that add and finish the content part it names, and no part is added
   * or finished in between.
   */
  lemma TextLiesInItsPart(c: Codec, body: string, ps: seq<Payload>, q: nat)
    requires Faithful(c)
    requires var es := AllEvents(SplitLines(body)); WellNested(c, es) && !Open(es) && ps == WrittenAll(c, es)
    ensures AllEvents(SplitLines(PrintAll(EmitAll(c, ps)))) == EmitAll(c, ps)
    ensures q < |ps| && ps[q].TextDelta? ==> Enclosed(ps, q)
  {
    hide SplitLines, AllEvents, Faithful, Written, TranslateAll, WellNested, Open, Enclosed;
    var es := AllEvents(SplitLines(body));
    ClientSees(c, body);
    OutputIsCaused(c, es);
    OutputNested(c, es);
  }
}
