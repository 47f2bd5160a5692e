/** What one request is estimated and metered at (internal/proxy/proxy.go), as functions of the request
    body and of what the provider did. */
module Calls {
  import opened Sums
  import opened Json
  import opened Sse
  import opened Strip
  import opened Extract
  import opened Prices
  import Stream

  const DEFAULT_OUTPUT := 1000

  function ProviderName(p: Provider): string {
    match p
    case OpenAI => "openai"
    case Anthropic => "anthropic"
  }

  /** A string member of a request body; anything else reads as empty. */
  function StringOr(doc: Option<Value>, name: string): string {
    if doc.Some? && doc.value.Obj? && StringField(doc.value.members, name).Ok?
    then StringField(doc.value.members, name).value else ""
  }

  /** An integer member of a request body; anything else reads as 0. */
  function IntOr(doc: Option<Value>, name: string): int {
    if doc.Some? && doc.value.Obj? && IntField(doc.value.members, name).Ok?
    then IntField(doc.value.members, name).value else 0
  }

  function RequestModel(codec: Codec, body: Bytes): string {
    StringOr(codec.parse(body), "model")
  }

  function RequestMaxTokens(codec: Codec, body: Bytes): int {
    var doc := codec.parse(body);
    if IntOr(doc, "max_tokens") > 0 then IntOr(doc, "max_tokens") else IntOr(doc, "max_completion_tokens")
  }

  /** The output tokens reserved for: the request's ceiling, or a constant if it sets none. */
  function OutputCeiling(codec: Codec, body: Bytes): (n: int)
    ensures n > 0
  {
    if RequestMaxTokens(codec, body) <= 0 then DEFAULT_OUTPUT else RequestMaxTokens(codec, body)
  }

  predicate Positive(m: map<string, Value>, name: string, n: int) {
    name in m && m[name] == Int(n) && 0 < n <= 9223372036854775807
  }

  /** The request's own ceiling, by the names of its members: max_tokens before max_completion_tokens. */
  lemma CeilingIs(codec: Codec, body: Bytes, m: map<string, Value>, n: int)
    requires codec.parse(body) == Some(Obj(m))
    ensures Positive(m, "max_tokens", n) ==> OutputCeiling(codec, body) == n
    ensures (forall k :: !Positive(m, "max_tokens", k)) && Positive(m, "max_completion_tokens", n) ==>
      OutputCeiling(codec, body) == n
    ensures (forall k :: !Positive(m, "max_tokens", k) && !Positive(m, "max_completion_tokens", k)) ==>
      OutputCeiling(codec, body) == 1000
    ensures RequestModel(codec, body) == if "model" in m && m["model"].Str? then m["model"].s else ""
  {
    FieldsDecode(m, "max_tokens");
    FieldsDecode(m, "max_completion_tokens");
    FieldsDecode(m, "model");
    hide StringField, IntField;
    Positives(m, "max_tokens");
    Positives(m, "max_completion_tokens");
  }

  lemma Positives(m: map<string, Value>, name: string)
    ensures IntOr(Some(Obj(m)), name) > 0 <==> Positive(m, name, IntOr(Some(Obj(m)), name))
  {
  }

  /** What is no JSON object names no ceiling and no model. */
  lemma CeilingOfOther(codec: Codec, body: Bytes)
    requires codec.parse(body).None? || !codec.parse(body).value.Obj?
    ensures OutputCeiling(codec, body) == 1000 && RequestModel(codec, body) == ""
  {
  }

  /** The reservation made before forwarding, in micro-USD. */
  function EstimateMicro(t: Table, codec: Codec, p: Provider, body: Bytes): int {
    ToMicro(Cost(t, ProviderName(p), RequestModel(codec, body), |body| / 4, OutputCeiling(codec, body)).0)
  }

  /** What became of a forwarded request. */
  datatype Outcome =
    | BadTarget                              // the upstream request could not be built
    | Unreachable                            // the upstream did not answer
    | Buffered(status: int, body: Bytes)
    | Streamed(status: int, chunks: seq<Bytes>, end: Stream.End)

  /** The metered quantities of a request. */
  datatype Row = Row(model: string, input: int, output: int, estimated: bool, status: int)

  function ModelOr(model: string, codec: Codec, body: Bytes): string {
    if model != "" then model else RequestModel(codec, body)
  }

  /** Usage-only frames are filtered from OpenAI streams if and only if the request was injected. */
  function FilterOf(codec: Codec, p: Provider, injected: bool): Drop {
    if p.OpenAI? && injected then UsageFrames(codec) else None
  }

  function FailedRow(codec: Codec, body: Bytes, status: int): Row {
    Row(RequestModel(codec, body), 0, 0, false, status)
  }

  function BufferedRow(codec: Codec, p: Provider, body: Bytes, status: int, reply: Bytes): Row {
    if status < 200 || status >= 300 then FailedRow(codec, body, status) else
      var u := ParseUsage(p, codec.parse(reply));
      if u.hasUsage then Row(ModelOr(u.model, codec, body), u.input, u.output, false, status)
      else Row(ModelOr(u.model, codec, body), |body| / 4, |reply| / 4, true, status)
  }

  /** A stream is metered with the counts its extractor holds, known or not. */
  function StreamedRow(codec: Codec, body: Bytes, status: int, u: Usage): Row {
    Row(ModelOr(u.model, codec, body), u.input, u.output, !u.hasUsage, status)
  }

  function RowOf(codec: Codec, p: Provider, injected: bool, body: Bytes, o: Outcome, fates: seq<Write>): Row {
    match o
    case BadTarget => FailedRow(codec, body, 502)
    case Unreachable => FailedRow(codec, body, 502)
    case Buffered(status, reply) => BufferedRow(codec, p, body, status, reply)
    case Streamed(status, chunks, _) =>
      StreamedRow(codec, body, status, StreamUsage(p, codec, FilterOf(codec, p, injected), fates, Flat(chunks)))
  }

  /** The provider answered and the reply is metered by what it says. */
  predicate Succeeds(o: Outcome) {
    o.Streamed? || (o.Buffered? && 200 <= o.status < 300)
  }

  /** The reply, as far as it is observed, does not report its usage. */
  ghost predicate Unreported(codec: Codec, p: Provider, injected: bool, o: Outcome, fates: seq<Write>)
    requires Succeeds(o)
  {
    match o
    case Buffered(_, reply) => !Reports(p, codec.parse(reply))
    case Streamed(_, chunks, _) =>
      var docs := SeenDocs(codec, FilterOf(codec, p, injected), fates, Flat(chunks));
      forall i :: 0 <= i < |docs| ==> !Authoritative(p, docs[i])
  }

  /** The fallback of DESIGN.md: a quarter of the characters of request and reply. */
  predicate AtQuarter(row: Row, body: Bytes, o: Outcome)
    requires Succeeds(o)
  {
    row.input == |body| / 4 && row.output == (if o.Buffered? then |o.body| else |Flat(o.chunks)|) / 4
  }

  /** No document that is observed of the stream sets an input count: for Anthropic, no message_start carries
      a usage. */
  ghost predicate NoStart(codec: Codec, p: Provider, injected: bool, o: Outcome, fates: seq<Write>)
    requires o.Streamed?
  {
    var docs := SeenDocs(codec, FilterOf(codec, p, injected), fates, Flat(o.chunks));
    forall i :: 0 <= i < |docs| ==> InputSet(p, docs[i]).None?
  }

  lemma SetsNothing(p: Provider, doc: Option<Value>)
    requires !Authoritative(p, doc) && (p.OpenAI? || InputSet(p, doc).None?)
    ensures InputSet(p, doc).None? && OutputSet(p, doc).None?
  {
    hide DecodeChunk, DecodeEvent;
  }

  /** A row is marked estimated exactly if the reply does not report its usage. A buffered reply is then
      metered at the fallback; a stream at the counts set last, known or not, so that it meets the fallback
      exactly if these happen to be as many. There are none in an OpenAI stream, nor in an Anthropic one whose
      message_start carries no usage: these meet the fallback exactly if request and reply are shorter than
      four characters. */
  lemma FallbackIff(codec: Codec, p: Provider, injected: bool, body: Bytes, o: Outcome, fates: seq<Write>)
    requires Succeeds(o)
    ensures var row := RowOf(codec, p, injected, body, o, fates);
      && (row.estimated <==> Unreported(codec, p, injected, o, fates))
      && (row.estimated && o.Buffered? ==> AtQuarter(row, body, o))
      && (o.Streamed? ==>
            var docs := SeenDocs(codec, FilterOf(codec, p, injected), fates, Flat(o.chunks));
            row.input == Or(LastSet(docs, Inputs(p)), 0) && row.output == Or(LastSet(docs, Outputs(p)), 0))
      && (row.estimated && o.Streamed? && (p.OpenAI? || NoStart(codec, p, injected, o, fates)) ==>
            && row.input == 0 && row.output == 0
            && (AtQuarter(row, body, o) <==> |body| < 4 && |Flat(o.chunks)| < 4))
  {
    hide RequestModel, ModelOr, SeenDocs, Split, Flat, DecodeReply, DecodeChunk, DecodeEvent, Fold, LastSet,
      UsageFrames;
    if o.Streamed? {
      var docs := SeenDocs(codec, FilterOf(codec, p, injected), fates, Flat(o.chunks));
      UsageOfStream(p, docs);
      if Unreported(codec, p, injected, o, fates) && (p.OpenAI? || NoStart(codec, p, injected, o, fates)) {
        forall i | 0 <= i < |docs| ensures Inputs(p)(docs[i]).None? && Outputs(p)(docs[i]).None? {
          SetsNothing(p, docs[i]);
        }
        NothingSet(docs, Inputs(p));
        NothingSet(docs, Outputs(p));
      }
    }
  }

  /** CostUSD of a row. */
  function RowCost(t: Table, p: Provider, row: Row): real {
    Cost(t, ProviderName(p), row.model, row.input, row.output).0
  }

  /** What the provider charged for stays within what was reserved for. */
  predicate WithinEstimate(t: Table, codec: Codec, p: Provider, body: Bytes, row: Row) {
    && row.input <= |body| / 4
    && row.output <= OutputCeiling(codec, body)
    && NotDearer(t, Key(ProviderName(p), row.model), Key(ProviderName(p), RequestModel(codec, body)))
  }

  /** Then the actual cost does not exceed the estimate. */
  lemma ActualWithinEstimate(t: Table, codec: Codec, p: Provider, body: Bytes, row: Row)
    requires NonNegative(t) && WithinEstimate(t, codec, p, body, row)
    ensures ToMicro(RowCost(t, p, row)) <= EstimateMicro(t, codec, p, body)
  {
    hide Cost, ToMicro, NotDearer, OutputCeiling, RequestModel;
    CostMonotone(t, ProviderName(p), row.model, RequestModel(codec, body), row.input, row.output,
                 |body| / 4, OutputCeiling(codec, body));
  }

  /** And the estimate is the least such bound: a request that uses all it was estimated for costs it. */
  lemma EstimateAttained(t: Table, codec: Codec, p: Provider, body: Bytes, status: int)
    ensures var row := Row(RequestModel(codec, body), |body| / 4, OutputCeiling(codec, body), false, status);
      WithinEstimate(t, codec, p, body, row) && ToMicro(RowCost(t, p, row)) == EstimateMicro(t, codec, p, body)
  {
    hide Cost, ToMicro, OutputCeiling, RequestModel;
  }

  /** A request that fails is metered at nothing under the model it asked for, with the status it got, which is
      502 if the upstream gave none. */
  lemma FailedIs(codec: Codec, p: Provider, injected: bool, body: Bytes, o: Outcome, fates: seq<Write>)
    requires !o.Streamed? && (o.Buffered? ==> !(200 <= o.status < 300))
    ensures RowOf(codec, p, injected, body, o, fates)
         == Row(RequestModel(codec, body), 0, 0, false, if o.Buffered? then o.status else 502)
  {
    hide RequestModel;
  }

  /** A buffered reply is metered at what it reports, under its own model name, or the request's if it has
      none. */
  lemma ReportedRow(codec: Codec, p: Provider, injected: bool, body: Bytes, status: int, reply: Bytes, model: string,
      tokens: Tokens, fates: seq<Write>)
    requires 200 <= status < 300 && InInt64(tokens.input) && InInt64(tokens.output)
    requires codec.parse(reply) == Some(Reply(p, model, tokens))
    ensures RowOf(codec, p, injected, body, Buffered(status, reply), fates)
         == Row(if model != "" then model else RequestModel(codec, body), tokens.input, tokens.output, false, status)
  {
    hide ParseUsage, RequestModel;
    ReportIsRead(p, model, tokens);
  }

  /** One that reports no usage is metered at the fallback, under the same model name. */
  lemma EstimatedRow(codec: Codec, p: Provider, injected: bool, body: Bytes, status: int, reply: Bytes,
      o: map<string, Value>, model: string, fates: seq<Write>)
    requires 200 <= status < 300 && codec.parse(reply) == Some(Obj(o))
    requires "model" in o && o["model"] == Str(model) && ("usage" in o ==> o["usage"] == Null)
    ensures RowOf(codec, p, injected, body, Buffered(status, reply), fates)
         == Row(if model != "" then model else RequestModel(codec, body), |body| / 4, |reply| / 4, true, status)
  {
    hide ParseUsage, RequestModel;
    ModelIsRead(p, o, model);
  }

  /** A stream as a provider writes it, to a client that stays: it is metered by its documents. */
  lemma WrittenRow(codec: Codec, p: Provider, injected: bool, body: Bytes, status: int, chunks: seq<Bytes>,
      end: Stream.End, fates: seq<Write>, xs: seq<Bytes>)
    requires Flat(chunks) == Written(xs) && forall i :: 0 <= i < |xs| ==> OneLine(xs[i])
    requires forall i :: 0 <= i < |fates| ==> fates[i].Taken?
    ensures RowOf(codec, p, injected, body, Streamed(status, chunks, end), fates)
         == StreamedRow(codec, body, status, Fold(p, NO_USAGE, Docs(codec, xs)))
  {
    hide Split, AllData, Written, OneLine, Docs, Fold, StreamedRow, StreamUsage, UsageFrames, EventsOf;
    StrippingKeepsUsage(p, codec, FilterOf(codec, p, injected), fates, Flat(chunks));
    WrittenIsRead(xs);
  }

  /** An OpenAI stream whose last document reports its usage is metered at it, under its model name, whether or
      not the frame is kept from the client. */
  lemma OpenAIRow(codec: Codec, injected: bool, body: Bytes, status: int, chunks: seq<Bytes>, end: Stream.End,
      fates: seq<Write>, xs: seq<Bytes>, o: map<string, Value>, model: string, input: int, output: int)
    requires Flat(chunks) == Written(xs) && xs != [] && forall i :: 0 <= i < |xs| ==> OneLine(xs[i])
    requires forall i :: 0 <= i < |fates| ==> fates[i].Taken?
    requires codec.parse(xs[|xs| - 1]) == Some(Obj(o)) && UsageChunk(o, model, input, output) && model != ""
    ensures RowOf(codec, OpenAI, injected, body, Streamed(status, chunks, end), fates)
         == Row(model, input, output, false, status)
  {
    hide Flat, Written, OneLine, RowOf, ObserveOpenAI, UsageChunk;
    WrittenRow(codec, OpenAI, injected, body, status, chunks, end, fates, xs);
    var docs := Docs(codec, xs);
    assert docs[|docs| - 1] == Some(Obj(o));
    ChunkIsRead(Fold(OpenAI, NO_USAGE, docs[..|docs| - 1]), o, model, input, output);
  }

  /** An Anthropic stream is metered at the input count of its first event and the output count of its last. */
  lemma AnthropicRow(codec: Codec, body: Bytes, status: int, chunks: seq<Bytes>, end: Stream.End, fates: seq<Write>,
      xs: seq<Bytes>, d: nat, start: map<string, Value>, delta: map<string, Value>, model: string,
      input: int, output: int, final: int)
    requires Flat(chunks) == Written(xs) && forall i :: 0 <= i < |xs| ==> OneLine(xs[i])
    requires forall i :: 0 <= i < |fates| ==> fates[i].Taken?
    requires 0 < d < |xs| && codec.parse(xs[0]) == Some(Obj(start)) && codec.parse(xs[d]) == Some(Obj(delta))
    requires StartEvent(start, model, input, output) && DeltaEvent(delta, final) && model != ""
    requires forall i :: 0 < i < |xs| && i != d ==> OtherEvent(codec.parse(xs[i]))
    ensures RowOf(codec, Anthropic, false, body, Streamed(status, chunks, end), fates)
         == Row(model, input, final, false, status)
  {
    hide Flat, Written, OneLine, RowOf, OtherEvent, StartEvent, DeltaEvent, Fold;
    WrittenRow(codec, Anthropic, false, body, status, chunks, end, fates, xs);
    var docs := Docs(codec, xs);
    assert docs == [Some(Obj(start))] + docs[1..d] + [Some(Obj(delta))] + docs[d + 1..];
    AnthropicIsRead(start, docs[1..d], delta, docs[d + 1..], model, input, output, final);
  }

  /** A failed request is metered at nothing, so that the whole reservation is released. */
  lemma FailureReleasesAll(t: Table, codec: Codec, p: Provider, injected: bool, body: Bytes, o: Outcome,
      fates: seq<Write>)
    requires o.BadTarget? || o.Unreachable? || (o.Buffered? && (o.status < 200 || o.status >= 300))
    requires NonNegative(t)
    ensures var row := RowOf(codec, p, injected, body, o, fates);
      ToMicro(RowCost(t, p, row)) == 0 && WithinEstimate(t, codec, p, body, row) && !row.estimated
  {
    hide RequestModel, OutputCeiling, BufferedRow;
    assert 0 as real / 1000000.0 == 0.0;
    if o.Buffered? {
      FailedBuffered(codec, p, body, o.status, o.body);
    }
    var k := Key(ProviderName(p), RequestModel(codec, body));
    if k in t {
      ZeroTimes(t[k].input);
      ZeroTimes(t[k].output);
    }
  }

  /** A stream that reports no usage, for Anthropic not in message_start either, is metered at nothing: the
      whole reservation is released, whatever the provider charges. */
  lemma UnreportedStreamIsFree(t: Table, codec: Codec, p: Provider, injected: bool, body: Bytes, o: Outcome,
      fates: seq<Write>)
    requires o.Streamed? && Unreported(codec, p, injected, o, fates)
    requires p.OpenAI? || NoStart(codec, p, injected, o, fates)
    ensures var row := RowOf(codec, p, injected, body, o, fates);
      row.estimated && row.input == 0 && row.output == 0 && ToMicro(RowCost(t, p, row)) == 0
  {
    hide RowOf, Unreported, NoStart, Flat;
    FallbackIff(codec, p, injected, body, o, fates);
    var k := Key(ProviderName(p), RowOf(codec, p, injected, body, o, fates).model);
    assert 0 as real / 1000000.0 == 0.0;
    if k in t {
      ZeroTimes(t[k].input);
      ZeroTimes(t[k].output);
    }
  }

  lemma FailedBuffered(codec: Codec, p: Provider, body: Bytes, status: int, reply: Bytes)
    requires status < 200 || status >= 300
    ensures BufferedRow(codec, p, body, status, reply) == FailedRow(codec, body, status)
  {
  }

  lemma ZeroTimes(x: real)
    ensures 0.0 * x == 0.0
  {
  }

  /** An injected request whose provider adds usage frames gives its client the stream without them. */
  lemma InjectedUnnoticed(codec: Codec, s: Bytes, extra: seq<seq<Event>>)
    requires forall i :: 0 <= i < |Split(s)| ==> !Dropped(UsageFrames(codec), Split(s)[i])
    requires Insertable(Split(s), extra)
    requires forall i, j :: 0 <= i < |extra| && 0 <= j < |extra[i]| ==> Dropped(UsageFrames(codec), extra[i][j])
    ensures Filtered(FilterOf(codec, OpenAI, true), FlatAll(Weave(Split(s), extra))) == s
  {
    hide Dropped, Insertable;
    InjectThenStrip(UsageFrames(codec), s, extra);
  }
}
