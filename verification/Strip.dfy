/** What the client of a stream receives: the events that are not dropped, up to a failing write. */
module Strip {
  import opened Sums
  import opened Json
  import opened Sse
  import opened Extract

  /** A test on the data lines of an event; None forwards every event. */
  type Drop = Option<seq<Bytes> -> bool>

  predicate Dropped(drop: Drop, e: Event) {
    drop.Some? && drop.value(DataLines(e))
  }

  /** The events that are forwarded. */
  function Kept(drop: Drop, es: seq<Event>): seq<Event> {
    if es == [] then []
    else (if Dropped(drop, es[0]) then [] else [es[0]]) + Kept(drop, es[1..])
  }

  /** The fate of one write to the client: taken whole, or broken off after some bytes. */
  datatype Write = Taken | Broken(sent: nat)

  function SentBytes(w: Write, p: Bytes): Bytes {
    match w
    case Taken => p
    case Broken(n) => p[..if n < |p| then n else |p|]
  }

  /** What happens to a sequence of events: the bytes the client gets, how many events the extractor
      sees, whether a write failed, and the write fates not yet used up. */
  datatype Delivery = Delivery(bytes: Bytes, seen: nat, failed: bool, fates: seq<Write>)

  /** Writes meet the given fates in turn; once these are used up they are taken. */
  function Deliver(drop: Drop, fates: seq<Write>, es: seq<Event>): Delivery {
    if es == [] then Delivery([], 0, false, fates)
    else if Dropped(drop, es[0]) then
      var d := Deliver(drop, fates, es[1..]);
      d.(seen := d.seen + 1)
    else if fates != [] && fates[0].Broken? then
      Delivery(SentBytes(fates[0], Flat(es[0])), 1, true, fates[1..])
    else
      var d := Deliver(drop, if fates == [] then [] else fates[1..], es[1..]);
      d.(bytes := Flat(es[0]) + d.bytes, seen := d.seen + 1)
  }

  lemma KeptCons(drop: Drop, e: Event, rest: seq<Event>)
    ensures Kept(drop, [e] + rest) == (if Dropped(drop, e) then [] else [e]) + Kept(drop, rest)
  {
    hide Dropped;
    assert ([e] + rest)[0] == e && ([e] + rest)[1..] == rest;
  }

  lemma KeptNothing(drop: Drop)
    ensures Kept(drop, []) == []
  {
  }

  lemma {:induction false} KeptConcat(drop: Drop, a: seq<Event>, b: seq<Event>)
    ensures Kept(drop, a + b) == Kept(drop, a) + Kept(drop, b)
  {
    hide Dropped, Kept;
    if a == [] {
      KeptNothing(drop);
      assert a + b == b;
    } else {
      var e, rest := a[0], a[1..];
      assert a == [e] + rest && a + b == [e] + (rest + b);
      KeptCons(drop, e, rest);
      KeptCons(drop, e, rest + b);
      KeptConcat(drop, rest, b);
    }
  }

  lemma {:induction false} KeptAll(drop: Drop, es: seq<Event>)
    requires forall i :: 0 <= i < |es| ==> !Dropped(drop, es[i])
    ensures Kept(drop, es) == es
  {
    hide Dropped;
    if es != [] {
      forall i | 0 <= i < |es| - 1 ensures es[1..][i] == es[i + 1] {}
      KeptAll(drop, es[1..]);
    }
  }

  lemma {:induction false} KeptNone(drop: Drop, es: seq<Event>)
    requires forall i :: 0 <= i < |es| ==> Dropped(drop, es[i])
    ensures Kept(drop, es) == []
  {
    hide Dropped;
    if es != [] {
      forall i | 0 <= i < |es| - 1 ensures es[1..][i] == es[i + 1] {}
      KeptNone(drop, es[1..]);
    }
  }

  /** Dropping leaves framed events framed, and nothing that would be dropped. */
  lemma {:induction false} KeptFramed(drop: Drop, es: seq<Event>)
    requires Framed(es)
    ensures Framed(Kept(drop, es))
    ensures forall i :: 0 <= i < |Kept(drop, es)| ==> !Dropped(drop, Kept(drop, es)[i])
  {
    hide Blank, DataLines;
    if es != [] {
      FramedTail(es);
      KeptFramed(drop, es[1..]);
      var ks := Kept(drop, es[1..]);
      if !Dropped(drop, es[0]) {
        assert es[1..] == [] ==> ks == [];
        FramedCons(es[0], ks);
        forall i | 0 <= i < |[es[0]] + ks| ensures !Dropped(drop, ([es[0]] + ks)[i]) {
          assert i > 0 ==> ([es[0]] + ks)[i] == ks[i - 1];
        }
      } else {
        assert [] + ks == ks;
      }
    }
  }

  /** With a client that takes every write, the kept events arrive and every event is observed. */
  lemma {:induction false} DeliverAll(drop: Drop, fates: seq<Write>, es: seq<Event>)
    requires forall i :: 0 <= i < |fates| ==> fates[i].Taken?
    ensures var d := Deliver(drop, fates, es);
      d.bytes == FlatAll(Kept(drop, es)) && d.seen == |es| && !d.failed
  {
    hide Blank, DataLines, Dropped;
    if es != [] {
      if Dropped(drop, es[0]) {
        DeliverAll(drop, fates, es[1..]);
        assert Kept(drop, es) == Kept(drop, es[1..]);
      } else {
        DeliverAll(drop, if fates == [] then [] else fates[1..], es[1..]);
        var ks := Kept(drop, es[1..]);
        assert ([es[0]] + ks)[0] == es[0] && ([es[0]] + ks)[1..] == ks;
      }
    }
  }

  lemma KeptHead(drop: Drop, es: seq<Event>)
    requires es != [] && !Dropped(drop, es[0])
    ensures FlatAll(Kept(drop, es)) == Flat(es[0]) + FlatAll(Kept(drop, es[1..]))
  {
    hide Dropped;
    var ks := Kept(drop, es[1..]);
    assert ([es[0]] + ks)[0] == es[0] && ([es[0]] + ks)[1..] == ks;
  }

  lemma KeptSkip(drop: Drop, es: seq<Event>)
    requires es != [] && Dropped(drop, es[0])
    ensures Kept(drop, es) == Kept(drop, es[1..])
  {
    hide Dropped;
  }

  /** A failed write: it was for the last event seen, which was not dropped; everything kept before it
      arrived whole, of it a prefix, and nothing after it. Without a failure everything kept arrived. */
  predicate Explains(drop: Drop, es: seq<Event>, d: Delivery) {
    && d.seen <= |es|
    && (!d.failed ==> d.seen == |es| && d.bytes == FlatAll(Kept(drop, es)))
    && (d.failed ==> d.seen > 0 && !Dropped(drop, es[d.seen - 1]))
    && (d.failed ==>
          var before := FlatAll(Kept(drop, es[..d.seen - 1]));
          before <= d.bytes <= before + Flat(es[d.seen - 1]))
  }

  lemma ExplainsSkip(drop: Drop, es: seq<Event>, d: Delivery)
    requires es != [] && Dropped(drop, es[0]) && Explains(drop, es[1..], d)
    ensures Explains(drop, es, d.(seen := d.seen + 1))
  {
    hide Dropped;
    KeptSkip(drop, es);
    if d.failed {
      KeptSkip(drop, es[..d.seen]);
      assert es[..d.seen][1..] == es[1..][..d.seen - 1];
    }
  }

  lemma PrefixShift(head: Bytes, before: Bytes, bytes: Bytes, last: Bytes)
    requires before <= bytes <= before + last
    ensures head + before <= head + bytes <= head + before + last
  {
    assert head + before + last == head + (before + last);
  }

  lemma ExplainsKeep(drop: Drop, es: seq<Event>, d: Delivery)
    requires es != [] && !Dropped(drop, es[0]) && Explains(drop, es[1..], d)
    ensures Explains(drop, es, d.(bytes := Flat(es[0]) + d.bytes, seen := d.seen + 1))
  {
    hide Dropped, Flat, FlatAll, Kept;
    KeptHead(drop, es);
    if d.failed {
      KeptHead(drop, es[..d.seen]);
      assert es[..d.seen][1..] == es[1..][..d.seen - 1];
      PrefixShift(Flat(es[0]), FlatAll(Kept(drop, es[1..][..d.seen - 1])), d.bytes, Flat(es[d.seen]));
    }
  }

  lemma {:induction false} DeliverPrefix(drop: Drop, fates: seq<Write>, es: seq<Event>)
    ensures Explains(drop, es, Deliver(drop, fates, es))
  {
    hide Dropped;
    if es != [] {
      if Dropped(drop, es[0]) {
        DeliverPrefix(drop, fates, es[1..]);
        ExplainsSkip(drop, es, Deliver(drop, fates, es[1..]));
      } else if fates != [] && fates[0].Broken? {
        assert Kept(drop, es[..0]) == [];
      } else {
        var fates' := if fates == [] then [] else fates[1..];
        DeliverPrefix(drop, fates', es[1..]);
        ExplainsKeep(drop, es, Deliver(drop, fates', es[1..]));
      }
    }
  }

  // --- Whole streams ---

  /** The bytes a client that never fails receives of a stream. */
  function Filtered(drop: Drop, s: Bytes): Bytes {
    FlatAll(Kept(drop, Split(s)))
  }

  /** Without dropping, the stream passes through byte for byte. */
  lemma PassThrough(s: Bytes)
    ensures Filtered(None, s) == s
  {
    KeptAll(None, Split(s));
    SplitConcat(s);
  }

  /** A client that fails holds a prefix of what it would have received. */
  lemma DisconnectPrefix(drop: Drop, fates: seq<Write>, s: Bytes)
    ensures Deliver(drop, fates, Split(s)).bytes <= Filtered(drop, s)
  {
    hide Dropped, Split;
    var es, d := Split(s), Deliver(drop, fates, Split(s));
    DeliverPrefix(drop, fates, es);
    if d.failed {
      assert es == es[..d.seen - 1] + es[d.seen - 1..];
      KeptConcat(drop, es[..d.seen - 1], es[d.seen - 1..]);
      FlatAllConcat(Kept(drop, es[..d.seen - 1]), Kept(drop, es[d.seen - 1..]));
      KeptHead(drop, es[d.seen - 1..]);
    }
  }

  /** Stripping twice is stripping once, and the kept events are framed again in the output. */
  lemma StripIdempotent(drop: Drop, s: Bytes)
    ensures Split(Filtered(drop, s)) == Kept(drop, Split(s))
    ensures Filtered(drop, Filtered(drop, s)) == Filtered(drop, s)
  {
    hide Dropped;
    SplitFramed(s);
    KeptFramed(drop, Split(s));
    Resplit(Kept(drop, Split(s)));
    KeptAll(drop, Kept(drop, Split(s)));
  }

  /** Puts the group extra[i] in front of event i, and the last group behind the last event. */
  function Weave(es: seq<Event>, extra: seq<seq<Event>>): seq<Event>
    requires |extra| == |es| + 1
  {
    if es == [] then extra[0] else extra[0] + [es[0]] + Weave(es[1..], extra[1..])
  }

  /** The inserted events can stand where they are: each is terminated, and none comes behind a last
      event that is not. */
  predicate Insertable(es: seq<Event>, extra: seq<seq<Event>>) {
    && |extra| == |es| + 1
    && (forall i, j :: 0 <= i < |extra| && 0 <= j < |extra[i]| ==> Terminated(extra[i][j]))
    && (es != [] && !Terminated(es[|es| - 1]) ==> extra[|es|] == [])
  }

  lemma {:induction false} FramedConcat(a: seq<Event>, b: seq<Event>)
    requires forall i :: 0 <= i < |a| ==> Terminated(a[i])
    requires Framed(b)
    ensures Framed(a + b)
  {
    hide Blank;
    forall i | 0 <= i < |a + b| ensures Shape((a + b)[i]) && (i < |a + b| - 1 ==> Terminated((a + b)[i])) {
      if i < |a| {
        assert (a + b)[i] == a[i];
      } else {
        assert (a + b)[i] == b[i - |a|];
      }
    }
  }

  lemma {:induction false} WeaveFramed(es: seq<Event>, extra: seq<seq<Event>>)
    requires Framed(es) && Insertable(es, extra)
    ensures Framed(Weave(es, extra))
    ensures es == [] && extra[0] == [] ==> Weave(es, extra) == []
  {
    hide Blank;
    forall j | 0 <= j < |extra[0]| ensures Terminated(extra[0][j]) {}
    if es == [] {
      FramedConcat(extra[0], []);
      assert extra[0] + [] == extra[0];
    } else {
      FramedTail(es);
      WeaveTail(es, extra);
      WeaveFramed(es[1..], extra[1..]);
      var rest := Weave(es[1..], extra[1..]);
      if |es| == 1 && !Terminated(es[0]) {
        assert extra[1..][0] == [];
      }
      FramedCons(es[0], rest);
      FramedConcat(extra[0], [es[0]] + rest);
      assert extra[0] + [es[0]] + rest == extra[0] + ([es[0]] + rest);
    }
  }

  lemma WeaveTail(es: seq<Event>, extra: seq<seq<Event>>)
    requires Insertable(es, extra) && es != []
    ensures Insertable(es[1..], extra[1..])
  {
    hide Blank;
    forall i, j | 0 <= i < |extra| - 1 && 0 <= j < |extra[1..][i]| ensures Terminated(extra[1..][i][j]) {
      assert extra[1..][i] == extra[i + 1];
    }
  }

  lemma {:induction false} WeaveKept(drop: Drop, es: seq<Event>, extra: seq<seq<Event>>)
    requires |extra| == |es| + 1
    requires forall i :: 0 <= i < |es| ==> !Dropped(drop, es[i])
    requires forall i, j :: 0 <= i < |extra| && 0 <= j < |extra[i]| ==> Dropped(drop, extra[i][j])
    ensures Kept(drop, Weave(es, extra)) == es
  {
    hide Dropped;
    KeptNone(drop, extra[0]);
    if es != [] {
      var rest := Weave(es[1..], extra[1..]);
      forall i | 0 <= i < |es| - 1 ensures es[1..][i] == es[i + 1] {}
      forall i, j | 0 <= i < |extra| - 1 && 0 <= j < |extra[1..][i]| ensures Dropped(drop, extra[1..][i][j]) {
        assert extra[1..][i] == extra[i + 1];
      }
      WeaveKept(drop, es[1..], extra[1..]);
      assert extra[0] + [es[0]] + rest == extra[0] + ([es[0]] + rest);
      KeptConcat(drop, extra[0], [es[0]] + rest);
      assert ([es[0]] + rest)[0] == es[0] && ([es[0]] + rest)[1..] == rest;
      assert es == [es[0]] + es[1..];
    }
  }

  /** Inject, then strip, is the identity: a stream without droppable events gets back its own bytes
      from the stream with droppable events put in, whatever their number and their places. */
  lemma InjectThenStrip(drop: Drop, s: Bytes, extra: seq<seq<Event>>)
    requires forall i :: 0 <= i < |Split(s)| ==> !Dropped(drop, Split(s)[i])
    requires Insertable(Split(s), extra)
    requires forall i, j :: 0 <= i < |extra| && 0 <= j < |extra[i]| ==> Dropped(drop, extra[i][j])
    ensures Filtered(drop, FlatAll(Weave(Split(s), extra))) == s
  {
    hide Dropped, Split;
    SplitFramed(s);
    WeaveFramed(Split(s), extra);
    Resplit(Weave(Split(s), extra));
    WeaveKept(drop, Split(s), extra);
    SplitConcat(s);
  }

  // --- Usage ---

  function Docs(codec: Codec, data: seq<Bytes>): seq<Option<Value>> {
    seq(|data|, i requires 0 <= i < |data| => codec.parse(data[i]))
  }

  /** The frame filter of an injected request: some data line is a usage-only frame. */
  function UsageFrames(codec: Codec): Drop {
    Some(lines => exists i :: 0 <= i < |lines| && IsUsageOnly(codec.parse(lines[i])))
  }

  /** An event is filtered out of an injected stream exactly if one of its data lines is such a frame. */
  lemma FrameDropped(codec: Codec, e: Event)
    ensures Dropped(UsageFrames(codec), e) <==> exists d :: d in DataLines(e) && IsUsageOnly(codec.parse(d))
  {
    hide DataLines, IsUsageOnly;
    if d :| d in DataLines(e) && IsUsageOnly(codec.parse(d)) {
      var i :| 0 <= i < |DataLines(e)| && DataLines(e)[i] == d;
      assert IsUsageOnly(codec.parse(DataLines(e)[i]));
    }
  }

  /** The documents that the extractor sees of a stream. */
  function SeenDocs(codec: Codec, drop: Drop, fates: seq<Write>, s: Bytes): seq<Option<Value>> {
    var es := Split(s);
    DeliverPrefix(drop, fates, es);
    Docs(codec, AllData(es[..Deliver(drop, fates, es).seen]))
  }

  /** The texts of those data lines that are not usage-only frames. */
  function Visible(codec: Codec, xs: seq<Bytes>): seq<Bytes> {
    if xs == [] then []
    else (if IsUsageOnly(codec.parse(xs[0])) then [] else [xs[0]]) + Visible(codec, xs[1..])
  }

  lemma OneFrame(codec: Codec, e: Event, x: Bytes)
    requires DataLines(e) == [x]
    ensures Dropped(UsageFrames(codec), e) <==> IsUsageOnly(codec.parse(x))
  {
    hide DataLines, IsUsageOnly, Dropped, UsageFrames;
    FrameDropped(codec, e);
    assert x in [x];
  }

  lemma {:induction false} KeptWritten(codec: Codec, xs: seq<Bytes>)
    requires forall i :: 0 <= i < |xs| ==> OneLine(xs[i])
    ensures Kept(UsageFrames(codec), EventsOf(xs)) == EventsOf(Visible(codec, xs))
    ensures forall i :: 0 <= i < |Visible(codec, xs)| ==> OneLine(Visible(codec, xs)[i])
  {
    hide OneLine, IsUsageOnly, DataLine, DataLines;
    if xs != [] {
      var e, more := [DataLine(xs[0], [10]), [10]], Visible(codec, xs[1..]);
      EventOf(xs[0]);
      KeptWritten(codec, xs[1..]);
      OneFrame(codec, e, xs[0]);
      hide Dropped, UsageFrames;
      KeptCons(UsageFrames(codec), e, EventsOf(xs[1..]));
      assert ([xs[0]] + more)[0] == xs[0] && ([xs[0]] + more)[1..] == more;
      assert [] + more == more && [] + EventsOf(more) == EventsOf(more);
    }
  }

  /** An injected request's client gets the stream its provider wrote without the usage-only frames. */
  lemma WrittenFiltered(codec: Codec, xs: seq<Bytes>)
    requires forall i :: 0 <= i < |xs| ==> OneLine(xs[i])
    ensures Filtered(UsageFrames(codec), Written(xs)) == Written(Visible(codec, xs))
  {
    hide OneLine, Split, UsageFrames, Kept, EventsOf, Visible, Written;
    WrittenIsRead(xs);
    KeptWritten(codec, xs);
    EventsFramed(Visible(codec, xs));
  }

  /** What the extractor holds when the stream is over. */
  function StreamUsage(p: Provider, codec: Codec, drop: Drop, fates: seq<Write>, s: Bytes): Usage {
    Fold(p, NO_USAGE, SeenDocs(codec, drop, fates, s))
  }

  /** Stripping costs no usage: with a client that takes every write, it is the same with any filter. */
  lemma StrippingKeepsUsage(p: Provider, codec: Codec, drop: Drop, fates: seq<Write>, s: Bytes)
    requires forall i :: 0 <= i < |fates| ==> fates[i].Taken?
    ensures StreamUsage(p, codec, drop, fates, s) == Fold(p, NO_USAGE, Docs(codec, AllData(Split(s))))
    ensures StreamUsage(p, codec, drop, fates, s) == StreamUsage(p, codec, None, fates, s)
  {
    var es := Split(s);
    DeliverAll(drop, fates, es);
    DeliverAll(None, fates, es);
    assert es[..|es|] == es;
  }

  lemma {:induction false} DataOfSeen(es: seq<Event>, k: nat, i: nat) returns (j: nat)
    requires k < |es| && i < |DataLines(es[k])|
    ensures j < |AllData(es)| && AllData(es)[j] == DataLines(es[k])[i]
  {
    if k == 0 {
      j := i;
    } else {
      var j' := DataOfSeen(es[1..], k - 1, i);
      j := |DataLines(es[0])| + j';
    }
  }

  /** An OpenAI stream of which some data line decodes as a chunk with usage is metered with usage;
      in particular if that line stood in a frame that was stripped. */
  lemma StrippedUsageIsKnown(codec: Codec, drop: Drop, fates: seq<Write>, s: Bytes, k: nat, i: nat)
    requires k < Deliver(drop, fates, Split(s)).seen <= |Split(s)|
    requires i < |DataLines(Split(s)[k])|
    requires Authoritative(OpenAI, codec.parse(DataLines(Split(s)[k])[i]))
    ensures StreamUsage(OpenAI, codec, drop, fates, s).hasUsage
  {
    var es := Split(s)[..Deliver(drop, fates, Split(s)).seen];
    var j := DataOfSeen(es, k, i);
    UsageOfStream(OpenAI, Docs(codec, AllData(es)));
    assert Docs(codec, AllData(es))[j] == codec.parse(DataLines(es[k])[i]);
  }
}
