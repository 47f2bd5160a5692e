/** The life of one request in internal/proxy/proxy.go: inject, reserve, forward, meter, reconcile. While it
    is forwarded, other requests and other replicas go on using the store. */
module Gateway {
  import opened Sums
  import opened Json
  import opened Strip
  import opened Extract
  import opened Prices
  import opened Month
  import opened Budget
  import opened Calls
  import Inject
  import Auth
  import Meter
  import Sse
  import Stream
  import Protocol

  /** A command some replica sends to the store, or time passing there. */
  datatype Command =
    | Reserving(key: string, limit: int, est: int)
    | Adding(key: string, delta: int)
    | Waiting(seconds: nat)
    | Nothing

  function Apply(st: Store, c: Command): Store {
    match c
    case Reserving(key, limit, est) => AfterReserve(st, key, limit, est)
    case Adding(key, delta) => AfterReconcile(st, key, delta)
    case Waiting(seconds) => Elapse(st, seconds)
    case Nothing => st
  }

  function ApplyAll(st: Store, cs: seq<Command>): Store {
    if cs == [] then st else Apply(ApplyAll(st, cs[..|cs| - 1]), cs[|cs| - 1])
  }

  lemma LiveApply(st: Store, c: Command)
    requires Live(st)
    ensures Live(Apply(st, c))
  {
    hide ScriptAllows, Applies;
  }

  /** A reservation to be reconciled; inactive when none was made. */
  datatype Reservation = Reservation(active: bool, key: string, est: int)

  const NO_RESERVATION := Reservation(false, "", 0)

  datatype Verdict = Proceed(res: Reservation) | OverBudget(limitUsd: real, spendUsd: real) | Unavailable

  /** What the client is answered. */
  datatype Response = Aborted | Refused(v: Verdict) | BadGateway | Relayed(status: int)

  /** checkBudget as a function of the store: no cap or no budget client forwards unreserved; an error
      forwards unreserved or refuses, as the tenant is set to fail open or closed. */
  function VerdictOf(t: Table, codec: Codec, enforced: bool, p: Provider, tenant: Auth.Tenant, body: Bytes,
      clock: nat, st: Store, link: Link): Verdict {
    if tenant.budget.None? || !enforced then Proceed(NO_RESERVATION) else
      var est, limit, key := EstimateMicro(t, codec, p, body), ToMicro(tenant.budget.value), MonthKey(tenant.id, clock);
      if link.Up? && ScriptAllows(st, key, limit, est) then Proceed(Reservation(true, key, est))
      else if link.Up? && Exceeds(Counter(st, key), est, limit) then
        OverBudget(tenant.budget.value, Double(Counter(st, key)) as real / 1000000.0)
      else if tenant.failOpen then Proceed(NO_RESERVATION)
      else Unavailable
  }

  /** The command that the budget check sends. */
  function FirstCommand(t: Table, codec: Codec, enforced: bool, p: Provider, tenant: Auth.Tenant, body: Bytes,
      clock: nat, link: Link): Command {
    if tenant.budget.None? || !enforced || link.Down? then Nothing
    else Reserving(MonthKey(tenant.id, clock), ToMicro(tenant.budget.value), EstimateMicro(t, codec, p, body))
  }

  /** The command that the reconcile sends for a metered cost. */
  function LastCommand(res: Reservation, cost: real, link: Link): Command {
    if !res.active || link.Down? then Nothing else Adding(res.key, ToMicro(cost) - res.est)
  }

  function EventOf(t: Table, p: Provider, tenant: Auth.Tenant, feature: string, row: Row): Meter.Event {
    Meter.Event(
      tenant.id, feature, ProviderName(p), row.model, row.input, row.output, RowCost(t, p, row), row.estimated,
      row.status)
  }

  /** Injection is for OpenAI requests only. */
  function Prepared(codec: Codec, p: Provider, body: Bytes): Inject.Injection {
    if p.OpenAI? then Inject.Outcome(body, codec) else Inject.Unchanged
  }

  /** What a forwarded request is answered. */
  function ResponseOf(o: Outcome): Response {
    match o
    case BadTarget => BadGateway
    case Unreachable => BadGateway
    case Buffered(status, _) => Relayed(status)
    case Streamed(status, _, _) => Relayed(status)
  }

  /** The bytes of the provider that reach the client. */
  function Sent(codec: Codec, p: Provider, injected: bool, o: Outcome, fates: seq<Write>): Bytes {
    match o
    case BadTarget => []
    case Unreachable => []
    case Buffered(_, reply) => SentBytes(Stream.Fate(fates), reply)
    case Streamed(_, chunks, _) => Deliver(FilterOf(codec, p, injected), fates, Sse.Split(Sse.Flat(chunks))).bytes
  }

  /** The cost of a metering event is the price of the tokens, the provider and the model it names, and the
      tokens are the row's, in their places; so are the tenant and the feature the request's. */
  lemma EventPriced(t: Table, p: Provider, tenant: Auth.Tenant, feature: string, row: Row)
    ensures var e := EventOf(t, p, tenant, feature, row);
      && e.cost == Cost(t, e.provider, e.model, e.input, e.output).0
      && Row(e.model, e.input, e.output, e.estimated, e.status) == row
      && e.provider == (if p.OpenAI? then "openai" else "anthropic") && e.tenant == tenant.id && e.feature == feature
  {
  }

  /** A buffered reply reaches the client whole, whatever it is, or up to where its write broke; of a failed
      request nothing does. */
  lemma SentOf(codec: Codec, p: Provider, injected: bool, o: Outcome, fates: seq<Write>)
    requires !o.Streamed?
    ensures var sent := Sent(codec, p, injected, o, fates);
      if o.Buffered? then
        && sent <= o.body && (fates == [] || fates[0].Taken? ==> sent == o.body)
        && (fates != [] && fates[0].Broken? ==> |sent| == if fates[0].sent < |o.body| then fates[0].sent else |o.body|)
      else sent == []
  {
  }

  /** Only OpenAI requests are rewritten. */
  lemma AnthropicUnchanged(codec: Codec, body: Bytes)
    ensures Prepared(codec, Anthropic, body) == Inject.Unchanged
    ensures Prepared(codec, OpenAI, body) == Inject.Outcome(body, codec)
  {
  }

  /** With the store answering and amounts in range, a capped request is refused exactly if its estimate
      does not fit under the limit any more, its refusal names the counter as it is, and a refusal leaves
      the store alone; a request let through leaves the counter at most at the limit. The counter may be
      negative, as a late refund can leave it. */
  lemma CapDecides(t: Table, codec: Codec, p: Provider, tenant: Auth.Tenant, body: Bytes, clock: nat, st: Store)
    requires tenant.budget.Some? && 0 <= ToMicro(tenant.budget.value) < TWO53
    requires -TWO53 <= Counter(st, MonthKey(tenant.id, clock)) <= TWO53
    requires 0 <= EstimateMicro(t, codec, p, body)
    requires EstimateMicro(t, codec, p, body) <= TWO53 || Counter(st, MonthKey(tenant.id, clock)) >= 0
    ensures var v := VerdictOf(t, codec, true, p, tenant, body, clock, st, Up);
      var st' := Apply(st, FirstCommand(t, codec, true, p, tenant, body, clock, Up));
      var key, limit := MonthKey(tenant.id, clock), ToMicro(tenant.budget.value);
      && (v.OverBudget? <==> Counter(st, key) + EstimateMicro(t, codec, p, body) > limit)
      && (v.OverBudget? ==>
            && v.spendUsd == Counter(st, key) as real / 1000000.0 && v.limitUsd == tenant.budget.value && st' == st)
      && (!v.OverBudget? ==> v == Proceed(Reservation(true, key, EstimateMicro(t, codec, p, body))))
      && (!v.OverBudget? ==> Counter(st', key) == Counter(st, key) + v.res.est <= limit)
  {
    hide MonthKey, ToMicro, Exceeds, EstimateMicro, Double;
    var key, limit, est := MonthKey(tenant.id, clock), ToMicro(tenant.budget.value), EstimateMicro(t, codec, p, body);
    AllowedWithinLimit(st, key, limit, est);
    ScriptExact(Counter(st, key), est, limit);
    DoubleExact(Counter(st, key));
  }

  /** With the store failing, the tenant's flag alone decides, and a request let through is never reconciled.
      If the command was not carried out the store is as it was. If only its answer was lost, the estimate is
      on the counter exactly if it fits, and nothing else has changed; it is there until the key expires
      (Protocol.LostAnswerStays). */
  lemma OutageDecides(t: Table, codec: Codec, p: Provider, tenant: Auth.Tenant, body: Bytes, clock: nat, st: Store,
      link: Link)
    requires tenant.budget.Some? && !link.Up?
    ensures var v := VerdictOf(t, codec, true, p, tenant, body, clock, st, link);
      var st' := Apply(st, FirstCommand(t, codec, true, p, tenant, body, clock, link));
      var key, limit, est := MonthKey(tenant.id, clock), ToMicro(tenant.budget.value), EstimateMicro(t, codec, p, body);
      && v == (if tenant.failOpen then Proceed(NO_RESERVATION) else Unavailable)
      && (forall cost, later :: v.Proceed? ==> LastCommand(v.res, cost, later) == Nothing)
      && (link.Down? ==> st' == st)
      && (link.AnswerLost? ==>
            && Counter(st', key) == Counter(st, key) + (if ScriptAllows(st, key, limit, est) then est else 0)
            && (forall other :: other != key ==> Counter(st', other) == Counter(st, other)))
      && (0 <= limit < TWO53 && 0 <= est && InInt64(Counter(st, key)) && (est <= TWO53 || Counter(st, key) >= 0) ==>
            (ScriptAllows(st, key, limit, est) <==> Counter(st, key) + est <= limit))
  {
    hide MonthKey, ToMicro, Exceeds, EstimateMicro;
    var key, limit, est := MonthKey(tenant.id, clock), ToMicro(tenant.budget.value), EstimateMicro(t, codec, p, body);
    if 0 <= limit < TWO53 && 0 <= est && InInt64(Counter(st, key)) && (est <= TWO53 || Counter(st, key) >= 0) {
      AllowedWithinLimit(st, key, limit, est);
    }
  }

  /** A request goes through without a reservation exactly if it has no cap, or the cap is not enforced, or
      the reservation errs, in transport or by overflow, and the tenant is set to fail open. */
  lemma UnreservedIff(t: Table, codec: Codec, enforced: bool, p: Provider, tenant: Auth.Tenant, body: Bytes,
      clock: nat, st: Store, link: Link)
    ensures var v := VerdictOf(t, codec, enforced, p, tenant, body, clock, st, link);
      v.Proceed? && !v.res.active <==>
        || tenant.budget.None? || !enforced
        || (tenant.failOpen && (!link.Up? ||
              var c, est := Counter(st, MonthKey(tenant.id, clock)), EstimateMicro(t, codec, p, body);
              !Exceeds(c, est, ToMicro(tenant.budget.value)) && !InInt64(c + est)))
  {
    hide MonthKey, ToMicro, Exceeds, EstimateMicro, Double;
  }

  /** A request that set include_usage itself, to whatever value, is forwarded as it is, its stream is not
      filtered, and its client gets it byte for byte, up to a write that fails. */
  lemma ClientSetUnfiltered(codec: Codec, p: Provider, body: Bytes, chunks: seq<Bytes>, status: int, end: Stream.End,
      fates: seq<Write>)
    requires Inject.ClientSet(codec.parse(body))
    ensures Prepared(codec, p, body) == Inject.Unchanged
    ensures var s := Sse.Flat(chunks);
      var sent := Sent(codec, p, Prepared(codec, p, body).Injected?, Streamed(status, chunks, end), fates);
      sent <= s && ((forall i :: 0 <= i < |fates| ==> fates[i].Taken?) ==> sent == s)
  {
    hide Sse.Split, Sse.Flat, Deliver;
    var s := Sse.Flat(chunks);
    PassThrough(s);
    DisconnectPrefix(None, fates, s);
    if forall i :: 0 <= i < |fates| ==> fates[i].Taken? {
      DeliverAll(None, fates, Sse.Split(s));
    }
  }

  /** So an OpenAI client that switches usage reporting off is charged nothing for a stream whose provider
      obliges: no token is metered, and the reconcile takes the whole reservation back. */
  lemma OptedOutIsFree(t: Table, codec: Codec, tenant: Auth.Tenant, feature: string, body: Bytes, o: Outcome,
      fates: seq<Write>, res: Reservation)
    requires codec.parse(body)
          == Some(Obj(map["stream" := Bool(true), "stream_options" := Obj(map["include_usage" := Bool(false)])]))
    requires o.Streamed? && Unreported(codec, OpenAI, false, o, fates)
    ensures Prepared(codec, OpenAI, body) == Inject.Unchanged
    ensures var event := EventOf(t, OpenAI, tenant, feature, RowOf(codec, OpenAI, false, body, o, fates));
      && event.input == 0 && event.output == 0 && event.estimated
      && (res.active ==> LastCommand(res, event.cost, Up) == Adding(res.key, -res.est))
  {
    hide RowOf, Unreported, RowCost, ToMicro;
    var options := map["include_usage" := Bool(false)];
    var m := map["stream" := Bool(true), "stream_options" := Obj(options)];
    assert m["stream"] == Bool(true) && m["stream_options"] == Obj(options) && "include_usage" in options;
    assert Inject.ClientSet(codec.parse(body));
    UnreportedStreamIsFree(t, codec, OpenAI, false, body, o, fates);
  }

  class Proxy {
    const table: Table
    const codec: Codec
    const client: Client? // null disables enforcement
    const writer: Meter.Writer

    constructor (table: Table, codec: Codec, client: Client?, writer: Meter.Writer)
      ensures this.table == table && this.codec == codec && this.client == client && this.writer == writer
    {
      this.table, this.codec, this.client, this.writer := table, codec, client, writer;
    }

    function Stores(): set<object> {
      if client == null then {} else {client.rdb}
    }

    method CheckBudget(p: Provider, tenant: Auth.Tenant, body: Bytes, clock: nat, link: Link) returns (v: Verdict)
      requires client != null ==> Live(client.rdb.st)
      modifies Stores()
      ensures client == null ==> v == Proceed(NO_RESERVATION)
      ensures client != null ==>
        && v == VerdictOf(table, codec, true, p, tenant, body, clock, old(client.rdb.st), link)
        && client.rdb.st == Apply(old(client.rdb.st), FirstCommand(table, codec, true, p, tenant, body, clock, link))
    {
      hide EstimateMicro, ToMicro, MonthKey, Exceeds, Double, ScriptAllows, AfterReserve;
      if tenant.budget.None? || client == null {
        return Proceed(NO_RESERVATION);
      }
      var est := EstimateMicro(table, codec, p, body);
      var limit := ToMicro(tenant.budget.value);
      var key := MonthKey(tenant.id, clock);
      assert !(ScriptAllows(client.rdb.st, key, limit, est) && Exceeds(Counter(client.rdb.st, key), est, limit)) by {
        AllowedOrExceeds(client.rdb.st, key, limit, est);
      }
      var r := client.Reserve(key, limit, est, link);
      match r {
        case Failed =>
          if tenant.failOpen {
            return Proceed(NO_RESERVATION);
          }
          return Unavailable;
        case Denied(spend) =>
          return OverBudget(tenant.budget.value, spend as real / 1000000.0);
        case Allowed(_) =>
          return Proceed(Reservation(true, key, est));
      }
    }

    /** Reconciles the reservation and submits the metering event, both with the one cost of the row. */
    method Enqueue(res: Reservation, p: Provider, tenant: Auth.Tenant, feature: string, row: Row, link: Link)
      requires writer.Valid()
      modifies Stores(), writer
      ensures writer.Valid()
      ensures var event := EventOf(table, p, tenant, feature, row);
        writer.View() == Meter.Step(old(writer.View()), writer.size, Meter.Enqueue(event))
      ensures client != null ==>
        client.rdb.st == Apply(old(client.rdb.st), LastCommand(res, EventOf(table, p, tenant, feature, row).cost, link))
    {
      hide RowCost, ToMicro, AfterReconcile, Meter.Step;
      var cost := RowCost(table, p, row);
      if res.active && client != null {
        var _ := client.Reconcile(res.key, ToMicro(cost) - res.est, link); // an error is only logged
      }
      var _ := writer.Submit(EventOf(table, p, tenant, feature, row));
    }

    /** What other requests and replicas do to the store meanwhile. */
    method Meanwhile(others: seq<Command>)
      requires client != null ==> Live(client.rdb.st)
      modifies Stores()
      ensures client != null ==> client.rdb.st == ApplyAll(old(client.rdb.st), others) && Live(client.rdb.st)
    {
      if client == null {
        return;
      }
      hide Live, Apply;
      for i := 0 to |others|
        invariant client.rdb.st == ApplyAll(old(client.rdb.st), others[..i]) && Live(client.rdb.st)
      {
        LiveApply(client.rdb.st, others[i]);
        assert others[..i + 1][..i] == others[..i];
        client.rdb.st := Apply(client.rdb.st, others[i]);
      }
      assert others[..|others|] == others;
    }

    /** Relays a buffered response and says how it is metered. */
    method BufferedResponse(p: Provider, body: Bytes, status: int, reply: Bytes, dst: Stream.Client) returns (row: Row)
      modifies dst
      ensures row == BufferedRow(codec, p, body, status, reply)
      ensures forall injected ::
        dst.received == old(dst.received) + Sent(codec, p, injected, Buffered(status, reply), old(dst.fates))
    {
      var _ := dst.Write(reply);
      if status < 200 || status >= 300 {
        return FailedRow(codec, body, status);
      }
      var u := ParseUsage(p, codec.parse(reply));
      var estimated := !u.hasUsage;
      if estimated {
        u := u.(input := |body| / 4);
        u := u.(output := |reply| / 4);
      }
      row := Row(ModelOr(u.model, codec, body), u.input, u.output, estimated, status);
    }

    /** Relays a stream, filtered if the request was injected, and says how it is metered; a client that
        goes away in the middle is metered with the usage known by then. */
    method StreamResponse(p: Provider, injected: bool, body: Bytes, status: int, chunks: seq<Bytes>, end: Stream.End,
        dst: Stream.Client)
      returns (row: Row)
      modifies dst
      ensures row == RowOf(codec, p, injected, body, Streamed(status, chunks, end), old(dst.fates))
      ensures dst.received
           == old(dst.received) + Sent(codec, p, injected, Streamed(status, chunks, end), old(dst.fates))
    {
      hide Sse.Split, Sse.Flat, Fold, Deliver, Docs, Sse.AllData, Sse.DataLines;
      var ext := new Extractor(p);
      var src := new Stream.Reader(chunks, end);
      assert src.Remaining() == Sse.Flat(chunks);
      var _ := Stream.StreamSSE(dst, src, ext, FilterOf(codec, p, injected), codec); // an error is ignored
      row := StreamedRow(codec, body, status, ext.u);
    }

    /** One request. If it is forwarded, then on every path exactly one metering event is submitted, and its
        CostUSD is the cost the reservation is reconciled to; the store sees the request's two commands and,
        between them, whatever the others do. If it is refused or aborted, no event is submitted. */
    method Forward(p: Provider, tenant: Auth.Tenant, feature: string, original: Bytes, clock: nat, reserveLink: Link,
      upstream: Outcome, others: seq<Command>, dst: Stream.Client, settleLink: Link) returns (r: Response)
      requires writer.Valid() && (client != null ==> Live(client.rdb.st))
      modifies Stores(), writer, dst
      ensures writer.Valid()
      ensures r.Aborted? <==> Prepared(codec, p, original).Panic?
      ensures r.Aborted? ==> client != null ==> client.rdb.st == old(client.rdb.st)
      ensures !r.Aborted? ==>
        var inj := Prepared(codec, p, original);
        var body := if inj.Injected? then inj.body else original;
        var st := if client == null then Store(map[], 0) else old(client.rdb.st);
        var v := VerdictOf(table, codec, client != null, p, tenant, body, clock, st, reserveLink);
        var first := FirstCommand(table, codec, client != null, p, tenant, body, clock, reserveLink);
        && (r.Refused? <==> !v.Proceed?)
        && (r.Refused? ==> r.v == v && (client != null ==> client.rdb.st == Apply(st, first)))
        && (v.Proceed? ==>
              var row := RowOf(codec, p, inj.Injected?, body, upstream, old(dst.fates));
              var event := EventOf(table, p, tenant, feature, row);
              && r == ResponseOf(upstream)
              && dst.received == old(dst.received) + Sent(codec, p, inj.Injected?, upstream, old(dst.fates))
              && writer.View() == Meter.Step(old(writer.View()), writer.size, Meter.Enqueue(event))
              && (client != null ==>
                    client.rdb.st
                    == Apply(ApplyAll(Apply(st, first), others), LastCommand(v.res, event.cost, settleLink))))
      ensures r.Aborted? || r.Refused? ==> writer.View() == old(writer.View()) && dst.received == old(dst.received)
    {
      hide VerdictOf, FirstCommand, LastCommand, Apply, ApplyAll, RowOf, EventOf, Meter.Step, Live, Inject.Outcome,
        Sent;
      var body, injected := original, false;
      if p.OpenAI? {
        var j := Inject.MaybeInjectUsage(original, codec);
        match j {
          case Panic => return Aborted;
          case Unchanged =>
          case Injected(b) => body, injected := b, true;
        }
      }
      ghost var st := if client == null then Store(map[], 0) else client.rdb.st;
      var v := CheckBudget(p, tenant, body, clock, reserveLink);
      VerdictUnenforced(table, codec, p, tenant, body, clock, st, reserveLink);
      LiveFirst(table, codec, client != null, p, tenant, body, clock, reserveLink, st);
      if !v.Proceed? {
        return Refused(v);
      }
      Meanwhile(others);
      RowOfCases(codec, p, injected, body, upstream, dst.fates);
      SentNothing(codec, p, injected, upstream, dst.fates);
      match upstream {
        case BadTarget =>
          Enqueue(v.res, p, tenant, feature, FailedRow(codec, body, 502), settleLink);
          r := BadGateway;
        case Unreachable =>
          Enqueue(v.res, p, tenant, feature, FailedRow(codec, body, 502), settleLink);
          r := BadGateway;
        case Buffered(status, reply) =>
          var row := BufferedResponse(p, body, status, reply, dst);
          Enqueue(v.res, p, tenant, feature, row, settleLink);
          r := Relayed(status);
        case Streamed(status, chunks, end) =>
          var row := StreamResponse(p, injected, body, status, chunks, end, dst);
          Enqueue(v.res, p, tenant, feature, row, settleLink);
          r := Relayed(status);
      }
    }
  }

  lemma AllowedOrExceeds(st: Store, key: string, limit: int, est: int)
    ensures ScriptAllows(st, key, limit, est) ==> !Exceeds(Counter(st, key), est, limit)
  {
    hide Exceeds;
  }

  lemma VerdictUnenforced(t: Table, codec: Codec, p: Provider, tenant: Auth.Tenant, body: Bytes, clock: nat,
      st: Store, link: Link)
    ensures VerdictOf(t, codec, false, p, tenant, body, clock, st, link) == Proceed(NO_RESERVATION)
  {
  }

  lemma LiveFirst(t: Table, codec: Codec, enforced: bool, p: Provider, tenant: Auth.Tenant, body: Bytes, clock: nat,
      link: Link, st: Store)
    ensures Live(st) ==> Live(Apply(st, FirstCommand(t, codec, enforced, p, tenant, body, clock, link)))
  {
    if Live(st) {
      LiveApply(st, FirstCommand(t, codec, enforced, p, tenant, body, clock, link));
    }
  }

  lemma RowOfCases(codec: Codec, p: Provider, injected: bool, body: Bytes, o: Outcome, fates: seq<Write>)
    ensures o.BadTarget? || o.Unreachable? ==> RowOf(codec, p, injected, body, o, fates) == FailedRow(codec, body, 502)
    ensures o.Buffered? ==> RowOf(codec, p, injected, body, o, fates) == BufferedRow(codec, p, body, o.status, o.body)
  {
  }

  lemma SentNothing(codec: Codec, p: Provider, injected: bool, o: Outcome, fates: seq<Write>)
    ensures o.BadTarget? || o.Unreachable? ==> Sent(codec, p, injected, o, fates) == []
  {
  }

  // --- One request among all: the protocol's events are the gateway's commands ---

  /** The command an event of the protocol sends. */
  function CommandOf(s: Protocol.State, e: Protocol.Event): Command {
    match e
    case Reserve(_, _, _, limit, est, link) => if link.Down? then Nothing else Reserving(Protocol.KeyOf(e), limit, est)
    case Settle(_, _, link, _) =>
      if !Protocol.CanSettle(s, e) || link.Down? then Nothing
      else Adding(s.reqs[e.req].key, Protocol.Delta(s, e))
    case Tick(seconds) => Waiting(seconds)
    case _ => Nothing
  }

  /** Every event of the protocol moves the store as its command does. */
  lemma EventIsCommand(s: Protocol.State, e: Protocol.Event)
    ensures Protocol.Step(s, e).store == Apply(s.store, CommandOf(s, e))
  {
    hide MonthKey, ToMicro, Exceeds;
  }

  /** A capped request is, in the protocol, a Reserve event with the same fate of its command: the command is
      the same, lost, refused or not, and the request has a reservation exactly if the event admits it and the
      answer arrives. Then its last command is that of the Settle event of the reservation, at the cost of its
      metering event. */
  lemma RequestIsProtocol(t: Table, codec: Codec, p: Provider, tenant: Auth.Tenant, body: Bytes, clock: nat, cost: real,
    replica: nat, s: Protocol.State, later: Protocol.State, link: Link, settleLink: Link)
    requires tenant.budget.Some?
    ensures var est := EstimateMicro(t, codec, p, body);
      var e := Protocol.Reserve(replica, tenant.id, clock, ToMicro(tenant.budget.value), est, link);
      var v := VerdictOf(t, codec, true, p, tenant, body, clock, s.store, link);
      && CommandOf(s, e) == FirstCommand(t, codec, true, p, tenant, body, clock, link)
      && (v.Proceed? && v.res.active <==> Protocol.Admits(s, e) && link.Up?)
      && (v.Proceed? && v.res.active && |s.reqs| < |later.reqs|
          && later.reqs[|s.reqs|] == Protocol.Step(s, e).reqs[|s.reqs|] ==>
            CommandOf(later, Protocol.Settle(|s.reqs|, cost, settleLink, true)) == LastCommand(v.res, cost, settleLink))
  {
    hide MonthKey, ToMicro, Exceeds, EstimateMicro, AfterReserve;
  }
}
