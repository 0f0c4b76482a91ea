/**
 * A codec that is faithful, so that the theorems about any faithful codec are about something:
 * strings are spelled as decimal character codes, fields are joined by semicolons.
 */
module SpelledCodec {
  import opened Basics
  import opened Text
  import opened EventStream
  import opened SseTranslator

  // ---------------------------------------------------------------- strings without special characters

  function Spell(s: string): string {
    if s == "" then "" else Spell(s[..|s| - 1]) + "," + Decimal(s[|s| - 1] as int)
  }

  lemma DecimalFree(n: nat, c: char)
    requires !IsDigit(c)
    ensures c !in Decimal(n)
  {
    DecimalDigits(n);
  }

  lemma {:induction false} SpellFree(s: string, c: char)
    requires c != ',' && !IsDigit(c)
    ensures c !in Spell(s)
  {
    if s != "" {
      SpellFree(s[..|s| - 1], c);
      DecimalFree(s[|s| - 1] as int, c);
    }
  }

  lemma {:induction false} SpellInjective(s: string, t: string)
    requires Spell(s) == Spell(t)
    ensures s == t
  {
    if s != "" && t != "" {
      var a, b := s[|s| - 1] as int, t[|t| - 1] as int;
      DecimalFree(a, ',');
      DecimalFree(b, ',');
      TailCancel(',', Spell(s[..|s| - 1]), Decimal(a), Spell(t[..|t| - 1]), Decimal(b));
      DecimalInjective(a, b);
      SpellInjective(s[..|s| - 1], t[..|t| - 1]);
      assert s == s[..|s| - 1] + [s[|s| - 1]] && t == t[..|t| - 1] + [t[|t| - 1]];
    }
  }

  // ---------------------------------------------------------------- fields

  datatype Field = Str(s: string) | Num(n: int)

  function Render(f: Field): string {
    match f
    case Str(s) => Spell(s)
    case Num(n) => Signed(n)
  }

  function RenderAll(fs: seq<Field>): seq<string> {
    seq(|fs|, i requires 0 <= i < |fs| => Render(fs[i]))
  }

  /** A record: its fields in braces. */
  function Wrap(fs: seq<Field>): string
    requires fs != []
  {
    "{" + Join(';', RenderAll(fs)) + "}"
  }

  lemma RenderFree(f: Field, c: char)
    requires c != ',' && c != '-' && !IsDigit(c)
    ensures c !in Render(f)
  {
    match f
    case Str(s) => SpellFree(s, c);
    case Num(n) => SignedFree(n, c);
  }

  lemma {:induction false} JoinFree(sep: char, c: char, fields: seq<string>)
    requires fields != [] && c != sep && Free(c, fields)
    ensures c !in Join(sep, fields)
  {
    if |fields| > 1 { JoinFree(sep, c, fields[1..]); }
  }

  lemma WrapClean(fs: seq<Field>)
    requires fs != []
    ensures Clean(Wrap(fs))
  {
    hide Render, Join;
    forall i | 0 <= i < |fs| ensures '\n' !in RenderAll(fs)[i] { RenderFree(fs[i], '\n'); }
    JoinFree(';', '\n', RenderAll(fs));
  }

  lemma WrapSplits(fs: seq<Field>, gs: seq<Field>)
    requires fs != [] && gs != [] && Wrap(fs) == Wrap(gs)
    ensures |fs| == |gs| && forall i :: 0 <= i < |fs| ==> Render(fs[i]) == Render(gs[i])
  {
    hide Render, Join;
    forall i | 0 <= i < |fs| ensures ';' !in RenderAll(fs)[i] { RenderFree(fs[i], ';'); }
    forall i | 0 <= i < |gs| ensures ';' !in RenderAll(gs)[i] { RenderFree(gs[i], ';'); }
    var x, y := Join(';', RenderAll(fs)), Join(';', RenderAll(gs));
    assert Wrap(fs)[1..|Wrap(fs)| - 1] == x && Wrap(gs)[1..|Wrap(gs)| - 1] == y;
    JoinInjective(';', RenderAll(fs), RenderAll(gs));
    assert forall i :: 0 <= i < |fs| ==> RenderAll(fs)[i] == Render(fs[i]);
    assert forall i :: 0 <= i < |gs| ==> RenderAll(gs)[i] == Render(gs[i]);
  }

  /** Every spelled character starts with a comma; no number has one. */
  lemma RenderInjective(f: Field, g: Field)
    requires Render(f) == Render(g)
    ensures f == g
  {
    if f.Num? { SignedFree(f.n, ','); }
    if g.Num? { SignedFree(g.n, ','); }
    if f.Str? && g.Str? {
      SpellInjective(f.s, g.s);
    } else if f.Num? && g.Num? {
      SignedInjective(f.n, g.n);
    }
  }

  lemma WrapInjective(fs: seq<Field>, gs: seq<Field>)
    requires fs != [] && gs != [] && Wrap(fs) == Wrap(gs)
    ensures fs == gs
  {
    hide Render, Wrap;
    WrapSplits(fs, gs);
    forall i | 0 <= i < |fs| ensures fs[i] == gs[i] { RenderInjective(fs[i], gs[i]); }
  }

  // ---------------------------------------------------------------- payloads

  function FieldsOf(p: Payload): (fs: seq<Field>)
    ensures fs != [] && fs[0].Num?
  {
    match p
    case Created(id, m) => [Num(0), Str(id), Str(m)]
    case InProgress(id, m) => [Num(1), Str(id), Str(m)]
    case ItemAdded(i) => [Num(2), Num(i)]
    case PartAdded(i, j) => [Num(3), Num(i), Num(j)]
    case TextDelta(i, j, d) => [Num(4), Num(i), Num(j), Str(d)]
    case TextDone(i, j) => [Num(5), Num(i), Num(j)]
    case PartDone(i, j) => [Num(6), Num(i), Num(j)]
    case ItemDone(i) => [Num(7), Num(i)]
    case Completed(id, m, i, o, t) => [Num(8), Str(id), Str(m), Num(i), Num(o), Num(t)]
  }

  function Encode(p: Payload): string { Wrap(FieldsOf(p)) }

  /** The first field tells the kind of payload, the others its contents. */
  lemma EncodeInjective(p: Payload, q: Payload)
    requires Encode(p) == Encode(q)
    ensures p == q
  {
    hide Wrap, Render;
    var fs, gs := FieldsOf(p), FieldsOf(q);
    WrapInjective(fs, gs);
    assert |fs| >= 2 && fs[1] == gs[1];
    if |fs| >= 3 { assert fs[2] == gs[2]; }
    if |fs| >= 4 { assert fs[3] == gs[3]; }
    if |fs| >= 6 { assert fs[4] == gs[4] && fs[5] == gs[5]; }
  }

  /** An upstream message_start or message_delta: the member "type", of any sort, and what is counted. */
  datatype StartEvent = StartEvent(ty: Field, start: MessageStart)
  datatype UsageEvent = UsageEvent(ty: Field, output: int)

  function StartFields(e: StartEvent): seq<Field> {
    [e.ty, Str(e.start.id), Str(e.start.model), Num(e.start.input), Num(e.start.cacheCreation), Num(e.start.cacheRead)]
  }

  function EncodeStart(e: StartEvent): string { Wrap(StartFields(e)) }

  function EncodeUsage(e: UsageEvent): string { Wrap([e.ty, Num(e.output)]) }

  function EncodeDelta(d: BlockDelta): string { Wrap([Str(d.kind), Str(d.text)]) }

  lemma StartInjective(a: StartEvent, b: StartEvent)
    requires EncodeStart(a) == EncodeStart(b)
    ensures a == b
  {
    hide Wrap, Render;
    var fs, gs := StartFields(a), StartFields(b);
    WrapInjective(fs, gs);
    assert fs[0] == gs[0] && fs[1] == gs[1] && fs[2] == gs[2] && fs[3] == gs[3] && fs[4] == gs[4] && fs[5] == gs[5];
  }

  lemma UsageInjective(a: UsageEvent, b: UsageEvent)
    requires EncodeUsage(a) == EncodeUsage(b)
    ensures a == b
  {
    hide Wrap, Render;
    var fs, gs := [a.ty, Num(a.output)], [b.ty, Num(b.output)];
    WrapInjective(fs, gs);
    assert fs[0] == gs[0] && fs[1] == gs[1];
  }

  lemma DeltaInjective(a: BlockDelta, b: BlockDelta)
    requires EncodeDelta(a) == EncodeDelta(b)
    ensures a == b
  {
    hide Wrap, Render;
    var fs, gs := [Str(a.kind), Str(a.text)], [Str(b.kind), Str(b.text)];
    WrapInjective(fs, gs);
    assert fs[0] == gs[0] && fs[1] == gs[1];
  }

  // ---------------------------------------------------------------- the codec

  /** What was encoded as s, if anything was. */
  ghost function Decode<T(!new)>(encode: T -> string, s: string): Option<T> {
    if exists x :: encode(x) == s then
      var x :| encode(x) == s;
      Some(x)
    else None
  }

  lemma DecodeInverts<T(!new)>(encode: T -> string, x: T)
    requires forall y :: encode(y) == encode(x) ==> y == x
    ensures Decode(encode, encode(x)) == Some(x)
  {}

  ghost function TextDeltaOf(p: Option<Payload>): Option<string> {
    if p.Some? && p.value.TextDelta? then Some(p.value.delta) else None
  }

  ghost function CompletionIn(p: Option<Payload>): Option<Completion> {
    if p.Some? && p.value.Completed? then Some(Completion(p.value.id, p.value.model, p.value.input, p.value.output, 0, 0)) else None
  }

  /** No record spelled s starts with a number. */
  ghost predicate TextFirst(s: string) {
    forall fs: seq<Field> :: fs != [] && Wrap(fs) == s ==> fs[0].Str?
  }

  lemma TextFirstIff(fs: seq<Field>)
    requires fs != []
    ensures TextFirst(Wrap(fs)) <==> fs[0].Str?
  {
    hide Wrap;
    forall gs | gs != [] && Wrap(gs) == Wrap(fs) ensures gs == fs { WrapInjective(gs, fs); }
  }

  ghost function StartIn(s: string): Option<MessageStart> {
    match Decode(EncodeStart, s) case None => None case Some(e) => Some(e.start)
  }

  ghost function UsageIn(s: string): Option<int> {
    match Decode(EncodeUsage, s) case None => None case Some(e) => Some(e.output)
  }

  ghost function Spelled(): Codec {
    Codec(
      (s: string) => true,
      TextFirst,
      Encode,
      StartIn,
      (s: string) => Decode(EncodeDelta, s),
      UsageIn,
      (s: string) => if TextFirst(s) then StartIn(s) else None,
      (s: string) => if TextFirst(s) then UsageIn(s) else None,
      (s: string) => TextDeltaOf(Decode(Encode, s)),
      (s: string) => CompletionIn(Decode(Encode, s)))
  }

  /** The codec is faithful, and decodes every upstream event it can spell, whatever its type. */
  lemma SpelledIsFaithful()
    ensures Faithful(Spelled()) && TypedTargets(Spelled())
    ensures forall e :: Spelled().decodeStart(EncodeStart(e)) == Some(e.start) && (Spelled().plainType(EncodeStart(e)) <==> e.ty.Str?)
    ensures forall e :: Spelled().decodeUsage(EncodeUsage(e)) == Some(e.output) && (Spelled().plainType(EncodeUsage(e)) <==> e.ty.Str?)
    ensures forall d :: Spelled().decodeBlockDelta(EncodeDelta(d)) == Some(d)
  {
    hide Wrap, Decode, Signed, Encode, EncodeStart, EncodeDelta, EncodeUsage, Clean, TextFirst;
    forall p ensures Clean(Encode(p)) && Decode(Encode, Encode(p)) == Some(p) { PayloadInverts(p); }
    forall e ensures Decode(EncodeStart, EncodeStart(e)) == Some(e) && (TextFirst(EncodeStart(e)) <==> e.ty.Str?) { StartInverts(e); }
    forall e ensures Decode(EncodeUsage, EncodeUsage(e)) == Some(e) && (TextFirst(EncodeUsage(e)) <==> e.ty.Str?) { UsageInverts(e); }
    forall d ensures Decode(EncodeDelta, EncodeDelta(d)) == Some(d) {
      forall e | EncodeDelta(e) == EncodeDelta(d) ensures e == d { DeltaInjective(e, d); }
      DecodeInverts(EncodeDelta, d);
    }
  }

  lemma StartInverts(e: StartEvent)
    ensures Decode(EncodeStart, EncodeStart(e)) == Some(e) && (TextFirst(EncodeStart(e)) <==> e.ty.Str?)
  {
    hide Wrap, TextFirst, Decode;
    forall f | EncodeStart(f) == EncodeStart(e) ensures f == e { StartInjective(f, e); }
    DecodeInverts(EncodeStart, e);
    TextFirstIff(StartFields(e));
  }

  lemma UsageInverts(e: UsageEvent)
    ensures Decode(EncodeUsage, EncodeUsage(e)) == Some(e) && (TextFirst(EncodeUsage(e)) <==> e.ty.Str?)
  {
    hide Wrap, TextFirst, Decode;
    forall f | EncodeUsage(f) == EncodeUsage(e) ensures f == e { UsageInjective(f, e); }
    DecodeInverts(EncodeUsage, e);
    TextFirstIff([e.ty, Num(e.output)]);
  }

  lemma PayloadInverts(p: Payload)
    ensures Clean(Encode(p)) && Decode(Encode, Encode(p)) == Some(p)
  {
    hide Wrap, Clean;
    WrapClean(FieldsOf(p));
    forall q | Encode(q) == Encode(p) ensures q == p { EncodeInjective(q, p); }
    DecodeInverts(Encode, p);
  }
}
