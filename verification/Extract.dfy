/** The usage extractors of internal/proxy/extract.go, as folds over decoded stream documents. */
module Extract {
  import opened Sums
  import opened Json

  datatype Provider = OpenAI | Anthropic

  datatype Usage = Usage(input: int, output: int, model: string, hasUsage: bool)

  const NO_USAGE := Usage(0, 0, "", false)

  datatype Tokens = Tokens(input: int, output: int)

  function TokensOf(o: Option<map<string, Value>>, inName: string, outName: string): Decoded<Option<Tokens>> {
    if o.None? then Ok(None) else
      var i :- IntField(o.value, inName);
      var u :- IntField(o.value, outName);
      Ok(Some(Tokens(i, u)))
  }

  // --- OpenAI: usage arrives in one chunk, the last one seen wins ---

  datatype Chunk = Chunk(model: string, usage: Option<Tokens>)

  function DecodeChunk(v: Value): Decoded<Chunk> {
    var o :- Root(v);
    var model :- StringField(o, "model");
    var u :- ObjectField(o, "usage");
    var tokens :- TokensOf(u, "prompt_tokens", "completion_tokens");
    Ok(Chunk(model, tokens))
  }

  function ObserveOpenAI(u: Usage, doc: Option<Value>): Usage {
    if doc.None? || DecodeChunk(doc.value).Mismatch? then u else
      var c := DecodeChunk(doc.value).value;
      var v := if c.model != "" then u.(model := c.model) else u;
      if c.usage.Some? then v.(input := c.usage.value.input, output := c.usage.value.output, hasUsage := true) else v
  }

  /** The frame an injected request adds: no choices, and a usage member that is there and not null. */
  predicate IsUsageOnly(doc: Option<Value>) {
    && doc.Some?
    && doc.value.Obj?
    && (match Field(doc.value.members, "choices")
        case Null => true
        case Arr(items) => items == []
        case _ => false)
    && !Field(doc.value.members, "usage").Null?
  }

  // --- Anthropic: input from message_start, authoritative output from message_delta ---

  datatype Message = Message(model: string, usage: Option<Tokens>)

  datatype MessageEvent = MessageEvent(kind: string, message: Option<Message>, output: Option<int>)

  function DecodeEvent(v: Value): Decoded<MessageEvent> {
    var o :- Root(v);
    var kind :- StringField(o, "type");
    var m :- ObjectField(o, "message");
    var message :- DecodeMessage(m);
    var u :- ObjectField(o, "usage");
    if u.None? then Ok(MessageEvent(kind, message, None)) else
      var out :- IntField(u.value, "output_tokens");
      Ok(MessageEvent(kind, message, Some(out)))
  }

  function DecodeMessage(m: Option<map<string, Value>>): Decoded<Option<Message>> {
    if m.None? then Ok(None) else
      var model :- StringField(m.value, "model");
      var u :- ObjectField(m.value, "usage");
      var tokens :- TokensOf(u, "input_tokens", "output_tokens");
      Ok(Some(Message(model, tokens)))
  }

  function ObserveAnthropic(u: Usage, doc: Option<Value>): Usage {
    if doc.None? || DecodeEvent(doc.value).Mismatch? then u else
      var e := DecodeEvent(doc.value).value;
      if e.kind == "message_start" && e.message.Some? then
        var v := if e.message.value.model != "" then u.(model := e.message.value.model) else u;
        if e.message.value.usage.Some?
        then v.(input := e.message.value.usage.value.input, output := e.message.value.usage.value.output)
        else v
      else if e.kind == "message_delta" && e.output.Some? then
        u.(output := e.output.value, hasUsage := true)
      else u
  }

  // --- Either provider ---

  function Observed(p: Provider, u: Usage, doc: Option<Value>): Usage {
    match p
    case OpenAI => ObserveOpenAI(u, doc)
    case Anthropic => ObserveAnthropic(u, doc)
  }

  /** What an extractor holds after a whole sequence of documents. */
  function Fold(p: Provider, u: Usage, docs: seq<Option<Value>>): Usage {
    if docs == [] then u else Observed(p, Fold(p, u, docs[..|docs| - 1]), docs[|docs| - 1])
  }

  lemma {:induction false} FoldAppend(p: Provider, u: Usage, a: seq<Option<Value>>, b: seq<Option<Value>>)
    ensures Fold(p, u, a + b) == Fold(p, Fold(p, u, a), b)
  {
    if b == [] {
      assert a + b == a;
    } else {
      FoldAppend(p, u, a, b[..|b| - 1]);
      assert (a + b)[..|a + b| - 1] == a + b[..|b| - 1];
    }
  }

  /** Usage of a non-streamed body. */
  function ParseUsage(p: Provider, doc: Option<Value>): Usage {
    match p
    case OpenAI => ObserveOpenAI(NO_USAGE, doc)
    case Anthropic => ParseAnthropic(doc)
  }

  function ParseAnthropic(doc: Option<Value>): Usage {
    if doc.None? then NO_USAGE else
      match DecodeReply(doc.value)
      case Mismatch => NO_USAGE
      case Ok(m) =>
        if m.usage.None? then NO_USAGE.(model := m.model)
        else Usage(m.usage.value.input, m.usage.value.output, m.model, true)
  }

  function DecodeReply(v: Value): Decoded<Message> {
    var o :- Root(v);
    var model :- StringField(o, "model");
    var u :- ObjectField(o, "usage");
    var tokens :- TokensOf(u, "input_tokens", "output_tokens");
    Ok(Message(model, tokens))
  }

  /** A buffered reply that reports its usage. */
  predicate Reports(p: Provider, doc: Option<Value>) {
    && doc.Some?
    && match p
       case OpenAI => DecodeChunk(doc.value).Ok? && DecodeChunk(doc.value).value.usage.Some?
       case Anthropic => DecodeReply(doc.value).Ok? && DecodeReply(doc.value).value.usage.Some?
  }

  // --- What a document contributes, read off the document alone ---

  /** The output count a document sets, if any. */
  function OutputSet(p: Provider, doc: Option<Value>): Option<int> {
    if doc.None? then None else
      match p
      case OpenAI =>
        if DecodeChunk(doc.value).Ok? && DecodeChunk(doc.value).value.usage.Some?
        then Some(DecodeChunk(doc.value).value.usage.value.output) else None
      case Anthropic =>
        if DecodeEvent(doc.value).Mismatch? then None else
          var e := DecodeEvent(doc.value).value;
          if e.kind == "message_delta" then e.output
          else if e.kind == "message_start" && e.message.Some? && e.message.value.usage.Some?
          then Some(e.message.value.usage.value.output) else None
  }

  /** The input count a document sets, if any. */
  function InputSet(p: Provider, doc: Option<Value>): Option<int> {
    if doc.None? then None else
      match p
      case OpenAI =>
        if DecodeChunk(doc.value).Ok? && DecodeChunk(doc.value).value.usage.Some?
        then Some(DecodeChunk(doc.value).value.usage.value.input) else None
      case Anthropic =>
        if DecodeEvent(doc.value).Mismatch? then None else
          var e := DecodeEvent(doc.value).value;
          if e.kind == "message_start" && e.message.Some? && e.message.value.usage.Some?
          then Some(e.message.value.usage.value.input) else None
  }

  /** The model name a document sets, if any. */
  function ModelSet(p: Provider, doc: Option<Value>): Option<string> {
    if doc.None? then None else
      match p
      case OpenAI =>
        if DecodeChunk(doc.value).Ok? && DecodeChunk(doc.value).value.model != ""
        then Some(DecodeChunk(doc.value).value.model) else None
      case Anthropic =>
        if DecodeEvent(doc.value).Mismatch? then None else
          var e := DecodeEvent(doc.value).value;
          if e.kind == "message_start" && e.message.Some? && e.message.value.model != ""
          then Some(e.message.value.model) else None
  }

  /** The document is one that carries the provider's authoritative usage. */
  predicate Authoritative(p: Provider, doc: Option<Value>) {
    && doc.Some?
    && match p
       case OpenAI => DecodeChunk(doc.value).Ok? && DecodeChunk(doc.value).value.usage.Some?
       case Anthropic =>
         && DecodeEvent(doc.value).Ok? && DecodeEvent(doc.value).value.kind == "message_delta"
         && DecodeEvent(doc.value).value.output.Some?
  }

  /** The value set last by a sequence of documents, if any of them sets one. */
  function LastSet<T>(docs: seq<Option<Value>>, sets: Option<Value> -> Option<T>): Option<T> {
    if docs == [] then None
    else if sets(docs[|docs| - 1]).Some? then sets(docs[|docs| - 1])
    else LastSet(docs[..|docs| - 1], sets)
  }

  function Outputs(p: Provider): Option<Value> -> Option<int> {
    doc => OutputSet(p, doc)
  }

  function Inputs(p: Provider): Option<Value> -> Option<int> {
    doc => InputSet(p, doc)
  }

  function Models(p: Provider): Option<Value> -> Option<string> {
    doc => ModelSet(p, doc)
  }

  function Or<T>(x: Option<T>, default: T): T {
    if x.Some? then x.value else default
  }

  /** LastSet names the document after which no other sets the value. */
  lemma {:induction false} LastSetIsLast<T>(docs: seq<Option<Value>>, sets: Option<Value> -> Option<T>, i: nat)
    requires i < |docs| && sets(docs[i]).Some? && forall j :: i < j < |docs| ==> sets(docs[j]).None?
    ensures LastSet(docs, sets) == sets(docs[i])
  {
    if i < |docs| - 1 {
      LastSetIsLast(docs[..|docs| - 1], sets, i);
    }
  }

  /** One document changes the counts and the model exactly when it sets them, and makes usage known
      exactly when it is authoritative. */
  lemma ObservedOne(p: Provider, u: Usage, doc: Option<Value>)
    ensures Observed(p, u, doc) == Usage(
      Or(InputSet(p, doc), u.input), Or(OutputSet(p, doc), u.output), Or(ModelSet(p, doc), u.model),
      u.hasUsage || Authoritative(p, doc))
  {
    hide DecodeChunk, DecodeEvent;
  }

  /** Whatever the order of documents: usage is known iff some document was authoritative, and each count
      and the model are the ones set last (the Anthropic output by message_start and message_delta). */
  lemma {:induction false} UsageOfStream(p: Provider, docs: seq<Option<Value>>)
    ensures var u := Fold(p, NO_USAGE, docs);
      && (u.hasUsage <==> exists i :: 0 <= i < |docs| && Authoritative(p, docs[i]))
      && u.output == Or(LastSet(docs, Outputs(p)), 0)
      && u.input == Or(LastSet(docs, Inputs(p)), 0)
      && u.model == Or(LastSet(docs, Models(p)), "")
  {
    hide Observed, Authoritative, OutputSet, InputSet, ModelSet;
    if docs != [] {
      UsageOfStream(p, docs[..|docs| - 1]);
      ObservedOne(p, Fold(p, NO_USAGE, docs[..|docs| - 1]), docs[|docs| - 1]);
    }
  }

  /** A reply that reports a usage in its provider's own terms. */
  function Reply(p: Provider, model: string, tokens: Tokens): Value {
    var usage := if p.OpenAI?
      then map["prompt_tokens" := Int(tokens.input), "completion_tokens" := Int(tokens.output)]
      else map["input_tokens" := Int(tokens.input), "output_tokens" := Int(tokens.output)];
    Obj(map["model" := Str(model), "usage" := Obj(usage)])
  }

  /** What a provider reports is what is read. */
  lemma ReportIsRead(p: Provider, model: string, tokens: Tokens)
    requires InInt64(tokens.input) && InInt64(tokens.output)
    ensures ParseUsage(p, Some(Reply(p, model, tokens))) == Usage(tokens.input, tokens.output, model, true)
  {
    var o := Reply(p, model, tokens).members;
    assert StringField(o, "model") == Ok(model);
    var u := ObjectField(o, "usage").value;
    if p.OpenAI? {
      assert TokensOf(u, "prompt_tokens", "completion_tokens") == Ok(Some(tokens));
    } else {
      assert TokensOf(u, "input_tokens", "output_tokens") == Ok(Some(tokens));
    }
  }

  /** A reply with a model and no usage: the model is read all the same. */
  lemma ModelIsRead(p: Provider, o: map<string, Value>, model: string)
    requires "model" in o && o["model"] == Str(model) && ("usage" in o ==> o["usage"] == Null)
    ensures ParseUsage(p, Some(Obj(o))) == Usage(0, 0, model, false)
  {
    FieldsDecode(o, "model");
    FieldsDecode(o, "usage");
    hide StringField, IntField, ObjectField;
  }

  /** The members hold these token counts under these names. */
  predicate Counts(us: map<string, Value>, inName: string, input: int, outName: string, output: int) {
    && inName in us && us[inName] == Int(input) && InInt64(input)
    && outName in us && us[outName] == Int(output) && InInt64(output)
  }

  /** A chunk of an OpenAI stream that reports usage, whatever else is in it. */
  predicate UsageChunk(o: map<string, Value>, model: string, input: int, output: int) {
    && "model" in o && o["model"] == Str(model)
    && "usage" in o && o["usage"].Obj?
    && Counts(o["usage"].members, "prompt_tokens", input, "completion_tokens", output)
  }

  lemma ChunkIsRead(u: Usage, o: map<string, Value>, model: string, input: int, output: int)
    requires UsageChunk(o, model, input, output)
    ensures ObserveOpenAI(u, Some(Obj(o))) == Usage(input, output, if model != "" then model else u.model, true)
  {
    FieldsDecode(o, "model");
    FieldsDecode(o, "usage");
    FieldsDecode(o["usage"].members, "prompt_tokens");
    FieldsDecode(o["usage"].members, "completion_tokens");
    hide StringField, IntField, ObjectField;
  }

  /** The first event of an Anthropic stream. */
  predicate StartEvent(o: map<string, Value>, model: string, input: int, output: int) {
    && "type" in o && o["type"] == Str("message_start") && "usage" !in o
    && "message" in o && o["message"].Obj?
    && var m := o["message"].members;
    && "model" in m && m["model"] == Str(model)
    && "usage" in m && m["usage"].Obj? && Counts(m["usage"].members, "input_tokens", input, "output_tokens", output)
  }

  lemma StartIsRead(u: Usage, o: map<string, Value>, model: string, input: int, output: int)
    requires StartEvent(o, model, input, output)
    ensures ObserveAnthropic(u, Some(Obj(o)))
         == Usage(input, output, if model != "" then model else u.model, u.hasUsage)
  {
    var m := o["message"].members;
    FieldsDecode(o, "type");
    FieldsDecode(o, "usage");
    FieldsDecode(o, "message");
    FieldsDecode(m, "model");
    FieldsDecode(m, "usage");
    FieldsDecode(m["usage"].members, "input_tokens");
    FieldsDecode(m["usage"].members, "output_tokens");
    hide StringField, IntField, ObjectField;
  }

  /** The event with its authoritative output count. */
  predicate DeltaEvent(o: map<string, Value>, output: int) {
    && "type" in o && o["type"] == Str("message_delta") && "message" !in o
    && "usage" in o && o["usage"].Obj?
    && "output_tokens" in o["usage"].members && o["usage"].members["output_tokens"] == Int(output) && InInt64(output)
  }

  lemma DeltaIsRead(u: Usage, o: map<string, Value>, output: int)
    requires DeltaEvent(o, output)
    ensures ObserveAnthropic(u, Some(Obj(o))) == u.(output := output, hasUsage := true)
  {
    FieldsDecode(o, "type");
    FieldsDecode(o, "usage");
    FieldsDecode(o, "message");
    FieldsDecode(o["usage"].members, "output_tokens");
    hide StringField, IntField, ObjectField;
  }

  /** Any other event of an Anthropic stream, such as a ping, and what is no JSON object. */
  predicate OtherEvent(doc: Option<Value>) {
    doc.Some? && doc.value.Obj? && "type" in doc.value.members ==>
      doc.value.members["type"] != Str("message_start") && doc.value.members["type"] != Str("message_delta")
  }

  lemma {:induction false} OthersAreIgnored(u: Usage, docs: seq<Option<Value>>)
    requires forall i :: 0 <= i < |docs| ==> OtherEvent(docs[i])
    ensures Fold(Anthropic, u, docs) == u
  {
    if docs != [] {
      var n := |docs| - 1;
      OthersAreIgnored(u, docs[..n]);
      OtherIsIgnored(u, docs[n]);
      hide OtherEvent, ObserveAnthropic;
    }
  }

  lemma OtherIsIgnored(u: Usage, doc: Option<Value>)
    requires OtherEvent(doc)
    ensures ObserveAnthropic(u, doc) == u
  {
    if doc.Some? && doc.value.Obj? {
      FieldsDecode(doc.value.members, "type");
    }
    hide StringField, IntField, ObjectField, DecodeMessage;
  }

  /** An Anthropic stream as it is documented: its first event, any others, the one with the final count, any
      others. The input is that of the first, the output that of the last. */
  lemma AnthropicIsRead(start: map<string, Value>, between: seq<Option<Value>>, delta: map<string, Value>,
      after: seq<Option<Value>>, model: string, input: int, output: int, final: int)
    requires StartEvent(start, model, input, output) && DeltaEvent(delta, final)
    requires forall i :: 0 <= i < |between| ==> OtherEvent(between[i])
    requires forall i :: 0 <= i < |after| ==> OtherEvent(after[i])
    ensures Fold(Anthropic, NO_USAGE, [Some(Obj(start))] + between + [Some(Obj(delta))] + after)
         == Usage(input, final, model, true)
  {
    var s, d := Some(Obj(start)), Some(Obj(delta));
    StartIsRead(NO_USAGE, start, model, input, output);
    DeltaIsRead(Usage(input, output, model, false), delta, final);
    hide ObserveAnthropic, OtherEvent, StartEvent, DeltaEvent;
    FoldOne(Anthropic, NO_USAGE, s);
    FoldOne(Anthropic, Usage(input, output, model, false), d);
    FoldAppend(Anthropic, NO_USAGE, [s], between);
    OthersAreIgnored(Usage(input, output, model, false), between);
    FoldAppend(Anthropic, NO_USAGE, [s] + between, [d]);
    FoldAppend(Anthropic, NO_USAGE, [s] + between + [d], after);
    OthersAreIgnored(Usage(input, final, model, true), after);
  }

  lemma FoldOne(p: Provider, u: Usage, doc: Option<Value>)
    ensures Fold(p, u, [doc]) == Observed(p, u, doc)
  {
    hide Observed;
    assert [doc][..0] == [];
  }

  /** The frames that are stripped: no choices, or none in the list, and a usage that is there and not null. */
  lemma UsageOnlyIff(doc: Option<Value>)
    ensures IsUsageOnly(doc) <==>
      && doc.Some? && doc.value.Obj?
      && var o := doc.value.members;
      && ("choices" !in o || o["choices"] == Null || o["choices"] == Arr([]))
      && "usage" in o && o["usage"] != Null
  {
  }

  /** A frame that may be stripped makes usage known exactly when it decodes as a chunk. */
  lemma StrippedFrameKnown(u: Usage, doc: Option<Value>)
    requires IsUsageOnly(doc) && !u.hasUsage
    ensures ObserveOpenAI(u, doc).hasUsage <==> DecodeChunk(doc.value).Ok?
  {
  }

  /** Some frames are stripped although they do not decode: their usage is lost. */
  lemma StrippedFrameLost()
    ensures var doc := Some(Obj(map["usage" := Str("12")]));
      IsUsageOnly(doc) && !ObserveOpenAI(NO_USAGE, doc).hasUsage
  {
  }

  /** Without a document that sets a value there is none set last. */
  lemma {:induction false} NothingSet<T>(docs: seq<Option<Value>>, sets: Option<Value> -> Option<T>)
    requires forall i :: 0 <= i < |docs| ==> sets(docs[i]).None?
    ensures LastSet(docs, sets).None?
  {
    if docs != [] {
      NothingSet(docs[..|docs| - 1], sets);
    }
  }

  /** Once known, usage stays known. */
  lemma {:induction false} KnownStaysKnown(p: Provider, u: Usage, docs: seq<Option<Value>>)
    requires u.hasUsage
    ensures Fold(p, u, docs).hasUsage
  {
    if docs != [] {
      KnownStaysKnown(p, u, docs[..|docs| - 1]);
    }
  }

  /** The extractor object of one response. */
  class Extractor {
    const provider: Provider
    var u: Usage

    constructor (provider: Provider)
      ensures this.provider == provider && u == NO_USAGE
    {
      this.provider := provider;
      u := NO_USAGE;
    }

    method Observe(data: Bytes, codec: Codec)
      modifies this
      ensures u == Observed(provider, old(u), codec.parse(data))
    {
      var doc := codec.parse(data);
      match provider {
        case OpenAI => ObserveChunk(doc);
        case Anthropic => ObserveEvent(doc);
      }
    }

    method ObserveChunk(doc: Option<Value>)
      modifies this
      ensures u == ObserveOpenAI(old(u), doc)
    {
      if doc.None? {
        return;
      }
      var d := DecodeChunk(doc.value);
      if d.Mismatch? {
        return;
      }
      if d.value.model != "" {
        u := u.(model := d.value.model);
      }
      if d.value.usage.Some? {
        u := u.(input := d.value.usage.value.input);
        u := u.(output := d.value.usage.value.output);
        u := u.(hasUsage := true);
      }
    }

    method ObserveEvent(doc: Option<Value>)
      modifies this
      ensures u == ObserveAnthropic(old(u), doc)
    {
      if doc.None? {
        return;
      }
      var d := DecodeEvent(doc.value);
      if d.Mismatch? {
        return;
      }
      var e := d.value;
      if e.kind == "message_start" {
        if e.message.Some? {
          if e.message.value.model != "" {
            u := u.(model := e.message.value.model);
          }
          if e.message.value.usage.Some? {
            u := u.(input := e.message.value.usage.value.input);
            u := u.(output := e.message.value.usage.value.output);
          }
        }
      } else if e.kind == "message_delta" {
        if e.output.Some? {
          u := u.(output := e.output.value);
          u := u.(hasUsage := true);
        }
      }
    }
  }
}
