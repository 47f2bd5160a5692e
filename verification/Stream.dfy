/** streamSSE itself: the loop, its buffers, the reader it pulls from and the client it writes to. */
module Stream {
  import opened Sums
  import opened Json
  import opened Sse
  import opened Extract
  import opened Strip

  /** How the source ends: regularly, or with a read error. */
  datatype End = Eof | Broke

  /** A buffered reader over a source that delivers its bytes in chunks of any size. */
  class Reader {
    var buf: Bytes
    var chunks: seq<Bytes>
    const end: End

    constructor (chunks: seq<Bytes>, end: End)
      ensures this.chunks == chunks && this.end == end && buf == []
    {
      this.chunks, this.end, buf := chunks, end, [];
    }

    function Remaining(): Bytes
      reads this
    {
      buf + Flat(chunks)
    }

    predicate Found()
      reads this`buf
    {
      LineLength(buf) > 0 && buf[LineLength(buf) - 1] == LF
    }

    /** Takes whole buffers until the next line feed is in the buffer or the source is exhausted. */
    method Gather() returns (line: Bytes)
      modifies this
      ensures NoLf(line) && old(Remaining()) == line + Remaining()
      ensures Found() || Remaining() == []
    {
      hide LineLength, Flat;
      line := [];
      NoLfEmpty();
      assert Remaining() == [] + Remaining();
      while !Found() && (buf != [] || chunks != [])
        invariant old(Remaining()) == line + (buf + Flat(chunks)) && NoLf(line)
        decreases |chunks|, |buf|
      {
        Carry(line, buf, chunks);
        line := line + buf;
        if chunks == [] {
          buf := [];
        } else {
          buf, chunks := chunks[0], chunks[1..];
        }
      }
      FlatNone();
    }

    /** Reads through the next line feed, or what is left together with how the source ended. The result
        depends on the remaining bytes only, not on how they are cut into chunks. */
    method ReadBytes() returns (line: Bytes, end: Option<End>)
      modifies this
      ensures var s := old(Remaining());
        line == s[..LineLength(s)] && Remaining() == s[LineLength(s)..]
      ensures end.None? <==> line != [] && line[|line| - 1] == LF
      ensures end.Some? ==> end.value == this.end && Remaining() == []
    {
      hide LineLength, Flat;
      line := Gather();
      if !Found() {
        NoLineFound(line);
        return line, Some(this.end);
      }
      LineFound(line, buf, Flat(chunks));
      var n := LineLength(buf);
      line := line + buf[..n];
      buf := buf[n..];
      end := None;
    }
  }

  ghost predicate NoLf(line: Bytes) {
    forall i :: 0 <= i < |line| ==> line[i] != LF
  }

  lemma NoLfEmpty()
    ensures NoLf([])
  {
  }

  lemma FlatNone()
    ensures Flat([]) == []
  {
  }

  /** No line feed in the buffer: it joins the line, and the next chunk takes its place. */
  lemma Carry(line: Bytes, buf: Bytes, chunks: seq<Bytes>)
    requires NoLf(line) && (LineLength(buf) == 0 || buf[LineLength(buf) - 1] != LF)
    ensures NoLf(line + buf)
    ensures var next := if chunks == [] then [] + Flat([]) else chunks[0] + Flat(chunks[1..]);
      line + (buf + Flat(chunks)) == (line + buf) + next
  {
    hide LineLength;
    assert LineLength(buf) == |buf|;
  }

  lemma NoLineFound(line: Bytes)
    requires NoLf(line)
    ensures LineLength(line + []) == |line| && (line + [])[..|line|] == line && (line + [])[|line|..] == []
    ensures line != [] ==> line[|line| - 1] != LF
  {
    hide LineLength;
    if line != [] {
      LineLengthOf(line, []);
    }
  }

  lemma LineFound(line: Bytes, buf: Bytes, later: Bytes)
    requires NoLf(line) && LineLength(buf) > 0 && buf[LineLength(buf) - 1] == LF
    ensures var s, n := line + (buf + later), LineLength(buf);
      s[..LineLength(s)] == line + buf[..n] && s[LineLength(s)..] == buf[n..] + later
  {
    hide LineLength;
    var n := LineLength(buf);
    var l, t := line + buf[..n], buf[n..] + later;
    assert line + (buf + later) == l + t;
    LineLengthOf(l, t);
  }

  /** The write fate an event meets. */
  function Fate(fates: seq<Write>): Write {
    if fates == [] then Taken else fates[0]
  }

  function LaterFates(fates: seq<Write>): seq<Write> {
    if fates == [] then [] else fates[1..]
  }

  /** The client connection. */
  class Client {
    var received: Bytes
    var flushed: nat
    var fates: seq<Write>

    constructor (fates: seq<Write>)
      ensures received == [] && flushed == 0 && this.fates == fates
    {
      received, flushed, this.fates := [], 0, fates;
    }

    method Write(p: Bytes) returns (ok: bool)
      modifies this`received, this`fates
      ensures var w := Fate(old(fates));
        ok == w.Taken? && received == old(received) + SentBytes(w, p)
      ensures fates == LaterFates(old(fates))
    {
      var w := Fate(fates);
      fates := LaterFates(fates);
      received := received + SentBytes(w, p);
      ok := w.Taken?;
    }

    method Flush()
      modifies this`flushed
      ensures flushed == |received|
    {
      flushed := |received|;
    }
  }

  lemma DocsConcat(codec: Codec, a: seq<Bytes>, b: seq<Bytes>)
    ensures Docs(codec, a + b) == Docs(codec, a) + Docs(codec, b)
  {
  }

  lemma {:induction false} AllDataSnoc(es: seq<Event>, e: Event)
    ensures AllData(es + [e]) == AllData(es) + DataLines(e)
  {
    hide DataLines;
    if es == [] {
      assert [] + [e] == [e] && AllData([e][1..]) == [];
    } else {
      assert (es + [e])[0] == es[0] && (es + [e])[1..] == es[1..] + [e];
      AllDataSnoc(es[1..], e);
    }
  }

  lemma FoldEvent(p: Provider, codec: Codec, u: Usage, es: seq<Event>, e: Event)
    ensures Fold(p, Fold(p, u, Docs(codec, AllData(es))), Docs(codec, DataLines(e)))
         == Fold(p, u, Docs(codec, AllData(es + [e])))
  {
    hide DataLines;
    AllDataSnoc(es, e);
    DocsConcat(codec, AllData(es), DataLines(e));
    FoldAppend(p, u, Docs(codec, AllData(es)), Docs(codec, DataLines(e)));
  }

  lemma DataLinesSnoc(e: Event, l: Line)
    ensures DataLines(e + [l]) == if IsData(l) then DataLines(e) + [Payload(l)] else DataLines(e)
  {
    hide IsData, Payload;
    assert (e + [l])[..|e|] == e;
  }

  /** One call of streamSSE: what it works on, where the client and the extractor stood at its start, and
      the events of its stream. */
  datatype Job = Job(
    drop: Drop, codec: Codec, provider: Provider, fates: seq<Write>, received: Bytes, u: Usage, es: seq<Event>)
  {
    function Whole(): Delivery {
      Deliver(drop, fates, es)
    }

    function UsageOf(seen: seq<Event>): Usage {
      Fold(provider, u, Docs(codec, AllData(seen)))
    }
  }

  /** The events `done` are flushed, the events `todo` are not. */
  ghost predicate At(j: Job, received: Bytes, fates: seq<Write>, u: Usage, done: seq<Event>, todo: seq<Event>) {
    var rest := Deliver(j.drop, fates, todo);
    && j.es == done + todo
    && j.received + j.Whole().bytes == received + rest.bytes
    && j.Whole().seen == |done| + rest.seen
    && j.Whole().failed == rest.failed
    && j.Whole().fates == rest.fates
    && u == j.UsageOf(done)
  }

  /** The whole call is accounted for, with or without a failed write. */
  ghost predicate Over(j: Job, received: Bytes, fates: seq<Write>, u: Usage, failed: bool) {
    var d := j.Whole();
    && received == j.received + d.bytes
    && fates == d.fates
    && failed == d.failed
    && d.seen <= |j.es|
    && u == j.UsageOf(j.es[..d.seen])
  }

  lemma AtStart(j: Job)
    ensures At(j, j.received, j.fates, j.u, [], j.es)
  {
    hide Dropped, DataLines;
    assert Docs(j.codec, AllData([])) == [];
  }

  lemma AtEnd(j: Job, received: Bytes, fates: seq<Write>, u: Usage, done: seq<Event>)
    requires At(j, received, fates, u, done, [])
    ensures Over(j, received, fates, u, false)
  {
    hide Dropped, DataLines;
    assert j.es == done && j.es[..|done|] == done;
  }

  /** Flushing the event e: it is dropped or written whole, or its write fails and ends the call. */
  lemma AtFlush(j: Job, received: Bytes, fates: seq<Write>, done: seq<Event>, e: Event, todo: seq<Event>)
    requires At(j, received, fates, j.UsageOf(done), done, [e] + todo)
    ensures j.UsageOf(done + [e]) == Fold(j.provider, j.UsageOf(done), Docs(j.codec, DataLines(e)))
    ensures Dropped(j.drop, e) ==> At(j, received, fates, j.UsageOf(done + [e]), done + [e], todo)
    ensures !Dropped(j.drop, e) && Fate(fates).Taken? ==>
      At(j, received + Flat(e), LaterFates(fates), j.UsageOf(done + [e]), done + [e], todo)
    ensures !Dropped(j.drop, e) && Fate(fates).Broken? ==>
      Over(j, received + SentBytes(Fate(fates), Flat(e)), LaterFates(fates), j.UsageOf(done + [e]), true)
  {
    hide Dropped, DataLines;
    FoldEvent(j.provider, j.codec, j.u, done, e);
    assert ([e] + todo)[0] == e && ([e] + todo)[1..] == todo;
    assert j.es == (done + [e]) + todo;
    if !Dropped(j.drop, e) {
      if Fate(fates).Taken? {
        var rest := Deliver(j.drop, LaterFates(fates), todo);
        assert received + (Flat(e) + rest.bytes) == received + Flat(e) + rest.bytes;
      } else {
        assert j.es[..|done| + 1] == done + [e];
      }
    }
  }

  lemma Nothing(s: Bytes)
    ensures DataLines([]) == [] && Flat([]) == [] && Split(s) == Group([], Lines(s))
  {
  }

  lemma LastEvent(open: Event, later: seq<Line>)
    requires later == []
    ensures Group(open, later) == (if open == [] then [] else [open]) + []
  {
  }

  lemma AtUsage(j: Job, received: Bytes, fates: seq<Write>, u: Usage, done: seq<Event>, todo: seq<Event>)
    requires At(j, received, fates, u, done, todo)
    ensures u == j.UsageOf(done)
  {
    hide Dropped, DataLines;
  }

  lemma OverFailed(j: Job, received: Bytes, fates: seq<Write>, u: Usage)
    ensures forall failed :: Over(j, received, fates, u, failed) ==> failed == j.Whole().failed
  {
    hide Dropped, DataLines;
  }

  lemma DroppedBy(drop: Drop, e: Event)
    ensures Dropped(drop, e) <==> drop.Some? && drop.value(DataLines(e))
  {
    hide DataLines;
  }

  lemma FirstLine(s: Bytes)
    ensures s == [] ==> s[..LineLength(s)] == [] && Lines(s) == []
    ensures s != [] ==>
      s[..LineLength(s)] != [] && Lines(s) == [s[..LineLength(s)]] + Lines(s[LineLength(s)..])
  {
  }

  lemma GroupStep(open: Event, l: Line, ls: seq<Line>)
    ensures Group(open, [l] + ls) == if Blank(l) then [open + [l]] + Group([], ls) else Group(open + [l], ls)
  {
    hide Blank;
    assert ([l] + ls)[0] == l && ([l] + ls)[1..] == ls;
  }

  /** What streamSSE asks of a line, in its order. */
  lemma LineKind(l: Line)
    ensures Blank(l) <==> TrimSpace(TrimEol(l)) == []
    ensures IsData(l) <==> !Blank(l) && DATA <= TrimEol(l)
    ensures IsData(l) ==> Payload(l) == TrimSpace(TrimEol(l)[|DATA|..])
  {
    hide TrimSpace, TrimEol;
  }

  /** Observes the data lines of the buffered event, then forwards the event unless it is dropped. */
  method FlushEvent(raw: Bytes, dataLines: seq<Bytes>, dst: Client, ext: Extractor, drop: Drop, codec: Codec,
    ghost j: Job, ghost done: seq<Event>, ghost open: Event, ghost todo: seq<Event>)
    returns (ok: bool)
    requires drop == j.drop && codec == j.codec && ext.provider == j.provider
    requires raw == Flat(open) && dataLines == DataLines(open) && (raw == [] <==> open == [])
    requires At(j, dst.received, dst.fates, ext.u, done, (if open == [] then [] else [open]) + todo)
    modifies dst, ext
    ensures ok ==> At(j, dst.received, dst.fates, ext.u, done + (if open == [] then [] else [open]), todo)
    ensures !ok ==> Over(j, dst.received, dst.fates, ext.u, true) && j.Whole().failed
    ensures ok && old(dst.flushed) == |old(dst.received)| ==> dst.flushed == |dst.received|
  {
    hide DataLines, Dropped, At, Job.Whole, Job.UsageOf, Over;
    if raw == [] {
      assert done + [] == done && [] + todo == todo;
      return true;
    }
    AtUsage(j, dst.received, dst.fates, ext.u, done, [open] + todo);
    AtFlush(j, dst.received, dst.fates, done, open, todo);
    DroppedBy(drop, open);
    ObserveAll(dataLines, ext, codec);
    var forward := drop.None? || !drop.value(dataLines);
    if forward {
      ok := dst.Write(raw);
      if !ok {
        OverFailed(j, dst.received, dst.fates, ext.u);
        return false;
      }
      dst.Flush();
    }
    ok := true;
  }

  method ObserveAll(dataLines: seq<Bytes>, ext: Extractor, codec: Codec)
    modifies ext
    ensures ext.u == Fold(ext.provider, old(ext.u), Docs(codec, dataLines))
  {
    for i := 0 to |dataLines|
      invariant ext.u == Fold(ext.provider, old(ext.u), Docs(codec, dataLines[..i]))
    {
      ext.Observe(dataLines[i], codec);
      assert dataLines[..i + 1] == dataLines[..i] + [dataLines[i]];
      assert Docs(codec, dataLines[..i + 1])[..i] == Docs(codec, dataLines[..i]);
    }
    assert dataLines[..|dataLines|] == dataLines;
  }

  /** What one more line does to the open event, asking of it what streamSSE asks, in its order. */
  lemma AddLine(open: Event, l: Line, later: seq<Line>)
    requires l != []
    ensures Flat(open + [l]) == Flat(open) + l && Flat(open) + l != []
    ensures TrimSpace(TrimEol(l)) == [] ==>
      Group(open, [l] + later) == [open + [l]] + Group([], later) && DataLines(open + [l]) == DataLines(open)
    ensures TrimSpace(TrimEol(l)) != [] ==>
      && Group(open, [l] + later) == Group(open + [l], later)
      && DataLines(open + [l]) ==
           if DATA <= TrimEol(l) then DataLines(open) + [TrimSpace(TrimEol(l)[|DATA|..])] else DataLines(open)
  {
    hide Blank, IsData, Payload, TrimSpace, TrimEol, DataLines, Group;
    GroupStep(open, l, later);
    FlatSnoc(open, l);
    DataLinesSnoc(open, l);
    LineKind(l);
  }

  /** Why streamSSE stopped before a regular end. */
  datatype StreamError = ClientGone | SourceBroken

  /** Forwards, observes and filters a whole stream. Whatever the chunking of the source, the client gets
      exactly what Deliver says of the stream's events, and the extractor has seen exactly their data lines. */
  method StreamSSE(dst: Client, src: Reader, ext: Extractor, drop: Drop, codec: Codec)
    returns (err: Option<StreamError>)
    modifies dst, src, ext
    ensures var j := Job(drop, codec, ext.provider, old(dst.fates), old(dst.received), old(ext.u),
                       Split(old(src.Remaining())));
      && Over(j, dst.received, dst.fates, ext.u, j.Whole().failed)
      && (!j.Whole().failed && old(dst.flushed) == |old(dst.received)| ==> dst.flushed == |dst.received|)
      && (err.None? <==> !j.Whole().failed && src.end.Eof?)
      && (!j.Whole().failed && src.end.Broke? ==> err == Some(SourceBroken))
  {
    hide Blank, DataLines, Dropped, LineLength, IsData, Payload, At, TrimSpace, TrimEol, Job.Whole, Job.UsageOf, Over,
      Lines, Group, Flat, Split, Reader.Remaining;
    ghost var j := Job(drop, codec, ext.provider, dst.fates, dst.received, ext.u, Split(src.Remaining()));
    AtStart(j);
    Nothing(src.Remaining());
    var raw: Bytes, dataLines: seq<Bytes> := [], [];
    ghost var open: Event, done: seq<Event> := [], [];
    while true
      invariant raw == Flat(open) && dataLines == DataLines(open) && (raw == [] <==> open == [])
      invariant At(j, dst.received, dst.fates, ext.u, done, Group(open, Lines(src.Remaining())))
      invariant old(dst.flushed) == |old(dst.received)| ==> dst.flushed == |dst.received|
      decreases |src.Remaining()|
    {
      FirstLine(src.Remaining());
      var line, end := src.ReadBytes();
      ghost var later := Lines(src.Remaining());
      if line != [] {
        AddLine(open, line, later);
        raw := raw + line;
        open := open + [line];
        var trimmed := TrimEol(line);
        if TrimSpace(trimmed) == [] {
          var ok := FlushEvent(raw, dataLines, dst, ext, drop, codec, j, done, open, Group([], later));
          if !ok {
            return Some(ClientGone);
          }
          done := done + [open];
          raw, dataLines, open := [], [], [];
        } else if DATA <= trimmed {
          dataLines := dataLines + [TrimSpace(trimmed[|DATA|..])];
        }
      }
      if end.Some? {
        FirstLine(src.Remaining());
        LastEvent(open, later);
        var ok := FlushEvent(raw, dataLines, dst, ext, drop, codec, j, done, open, []); // a trailing event
        if ok {
          AtEnd(j, dst.received, dst.fates, ext.u, done + if open == [] then [] else [open]);
          OverFailed(j, dst.received, dst.fates, ext.u);
        }
        if end.value.Eof? {
          return if ok then None else Some(ClientGone);
        }
        return Some(SourceBroken);
      }
    }
  }
}
