/** maybeInjectUsage of internal/proxy/proxy.go: asking OpenAI streams to report usage. */
module Inject {
  import opened Sums
  import opened Json

  const STREAM := "stream"
  const OPTIONS := "stream_options"
  const INCLUDE := "include_usage"

  /** Writing into the nil map that a null stream_options decodes to is a run-time panic. */
  datatype Injection = Unchanged | Injected(body: Bytes) | Panic

  predicate Streaming(doc: Option<Value>) {
    doc.Some? && doc.value.Obj? && STREAM in doc.value.members && doc.value.members[STREAM] == Bool(true)
  }

  /** The client decided about include_usage itself, whatever the value it gave. */
  predicate ClientSet(doc: Option<Value>) {
    Streaming(doc) && OPTIONS in doc.value.members && doc.value.members[OPTIONS].Obj?
    && INCLUDE in doc.value.members[OPTIONS].members
  }

  predicate NullOptions(doc: Option<Value>) {
    Streaming(doc) && OPTIONS in doc.value.members && doc.value.members[OPTIONS].Null?
  }

  /** The options an injected request carries: the client's own members, and include_usage. */
  function WithUsage(m: map<string, Value>): map<string, Value> {
    (if OPTIONS in m && m[OPTIONS].Obj? then m[OPTIONS].members else map[])[INCLUDE := Bool(true)]
  }

  function Rewritten(m: map<string, Value>): Value {
    Obj(m[OPTIONS := Obj(WithUsage(m))])
  }

  /** What a request body becomes. */
  function Outcome(body: Bytes, codec: Codec): Injection {
    var doc := codec.parse(body);
    if !Streaming(doc) || ClientSet(doc) then Unchanged
    else if NullOptions(doc) then Panic
    else Injected(codec.render(Rewritten(doc.value.members)))
  }

  /** Injects exactly the streaming requests whose options, if there are any, are not null and do not mention
      include_usage; panics on exactly those whose options are null. */
  method MaybeInjectUsage(body: Bytes, codec: Codec) returns (r: Injection)
    ensures r == Outcome(body, codec)
    ensures r.Panic? <==> NullOptions(codec.parse(body))
    ensures r.Injected? <==>
      var doc := codec.parse(body);
      Streaming(doc) && (OPTIONS in doc.value.members ==>
        var o := doc.value.members[OPTIONS];
        !o.Null? && (o.Obj? ==> INCLUDE !in o.members))
  {
    var doc := codec.parse(body);
    if doc.None? || (!doc.value.Obj? && !doc.value.Null?) {
      return Unchanged; // not a JSON object
    }
    var m := if doc.value.Obj? then doc.value.members else map[];
    if STREAM !in m || m[STREAM] != Bool(true) {
      return Unchanged;
    }
    if OPTIONS in m {
      if m[OPTIONS].Null? {
        return Panic; // decodes to a nil map; the write into it panics
      }
      if m[OPTIONS].Obj? {
        var opts := m[OPTIONS].members;
        if INCLUDE in opts {
          return Unchanged;
        }
        opts := opts[INCLUDE := Bool(true)];
        m := m[OPTIONS := Obj(opts)];
        return Injected(codec.render(Obj(m)));
      }
    }
    m := m[OPTIONS := Obj(map[INCLUDE := Bool(true)])];
    r := Injected(codec.render(Obj(m)));
  }

  /** What becomes of a request, by its members: only a literal true asks for a stream, and of the options
      nothing but include_usage is added; options that are no object are replaced. */
  lemma InjectedAs(m: map<string, Value>, body: Bytes, codec: Codec)
    requires codec.parse(body) == Some(Obj(m))
    ensures "stream" !in m || m["stream"] != Bool(true) ==> Outcome(body, codec) == Unchanged
    ensures "stream" in m && m["stream"] == Bool(true) ==>
      var asked := Obj(map["include_usage" := Bool(true)]);
      if "stream_options" !in m then
        Outcome(body, codec) == Injected(codec.render(Obj(m["stream_options" := asked])))
      else match m["stream_options"]
        case Null => Outcome(body, codec) == Panic
        case Obj(o) =>
          Outcome(body, codec) ==
            if "include_usage" in o then Unchanged
            else Injected(codec.render(Obj(m["stream_options" := Obj(o["include_usage" := Bool(true)])])))
        case _ => Outcome(body, codec) == Injected(codec.render(Obj(m["stream_options" := asked])))
  {
    var none: map<string, Value> := map[];
    assert none[INCLUDE := Bool(true)] == map["include_usage" := Bool(true)];
  }

  /** Injection asks for usage, keeps every other top-level member and every other option, adds none. */
  lemma InjectionIsMinimal(body: Bytes, codec: Codec)
    requires Faithful(codec) && Outcome(body, codec).Injected?
    ensures var before, after := codec.parse(body), codec.parse(Outcome(body, codec).body);
      && after.Some? && after.value.Obj?
      && var m, m' := before.value.members, after.value.members;
      && m'.Keys == m.Keys + {OPTIONS}
      && (forall k :: k in m && k != OPTIONS ==> m'[k] == m[k])
      && m'[OPTIONS].Obj?
      && var kept := if OPTIONS in m && m[OPTIONS].Obj? then m[OPTIONS].members else map[];
      && m'[OPTIONS].members.Keys == kept.Keys + {INCLUDE} && INCLUDE !in kept
      && (forall k :: k in kept ==> m'[OPTIONS].members[k] == kept[k])
      && m'[OPTIONS].members[INCLUDE] == Bool(true)
  {
    var doc := Rewritten(codec.parse(body).value.members);
    assert codec.parse(codec.render(doc)) == Some(doc);
  }

  /** A second pass over an injected request changes nothing and reports no injection. */
  lemma InjectionIsIdempotent(body: Bytes, codec: Codec)
    requires Faithful(codec) && Outcome(body, codec).Injected?
    ensures Outcome(Outcome(body, codec).body, codec) == Unchanged
  {
    var m := codec.parse(body).value.members;
    assert codec.parse(codec.render(Rewritten(m))) == Some(Rewritten(m));
    assert STREAM in m && m[STREAM] == Bool(true);
    assert Rewritten(m).members[STREAM] == m[STREAM];
  }

  /** A request with a null stream_options brings the handler down. */
  lemma NullOptionsPanics(body: Bytes, codec: Codec)
    requires codec.parse(body) == Some(Obj(map[STREAM := Bool(true), OPTIONS := Null]))
    ensures Outcome(body, codec) == Panic
  {
    var m := map[STREAM := Bool(true), OPTIONS := Null];
    assert m[STREAM] == Bool(true) && m[OPTIONS] == Null;
  }
}
