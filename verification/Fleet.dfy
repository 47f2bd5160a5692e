/** Many gateway requests at once, on any number of replicas: every interleaving of their budget checks and
    their ends is a run of the protocol, so what is proved of its runs holds of the gateway. */
module Fleet {
  import opened Sums
  import opened Json
  import opened Month
  import opened Prices
  import opened Budget
  import opened Strip
  import opened Extract
  import opened Calls
  import opened Gateway
  import Auth
  import Ledgers
  import Meter
  import Protocol

  /** A forwarded request: where and for whom, what it sends, its reservation if it has one, and the number
      that reservation has among all that were made. */
  datatype Flight = Flight(
    replica: nat, p: Provider, tenant: Auth.Tenant, feature: string, injected: bool, body: Bytes, clock: nat,
    res: Reservation, slot: nat, open: bool)

  /** A submitted metering event, the replica that submitted it, the time of its request's budget check, and
      what that had reserved, if it had. */
  datatype Filed = Filed(replica: nat, event: Meter.Event, clock: nat, reserved: Option<int>)

  function ReservedBy(f: Flight): Option<int> {
    if f.res.active then Some(f.res.est) else None
  }

  datatype State = State(store: Store, made: nat, flights: seq<Flight>, filed: seq<Filed>)

  const INIT := State(Store(map[], 0), 0, [], [])

  datatype Action =
    | Begin(replica: nat, enforced: bool, p: Provider, tenant: Auth.Tenant, feature: string, original: Bytes,
        clock: nat, link: Link)
    | End(flight: nat, o: Outcome, fates: seq<Write>, link: Link, submits: bool)
    | Crash(replica: nat)
    | Tick(seconds: nat)

  function BodyOf(codec: Codec, p: Provider, original: Bytes): Bytes {
    if Prepared(codec, p, original).Injected? then Prepared(codec, p, original).body else original
  }

  function Verdicted(t: Table, codec: Codec, s: State, a: Action): Verdict
    requires a.Begin?
  {
    VerdictOf(t, codec, a.enforced, a.p, a.tenant, BodyOf(codec, a.p, a.original), a.clock, s.store, a.link)
  }

  predicate CanEnd(s: State, a: Action) {
    a.End? && a.flight < |s.flights| && s.flights[a.flight].open
  }

  /** How a request that ends is metered. */
  function Metered(codec: Codec, s: State, a: Action): Row
    requires CanEnd(s, a)
  {
    var f := s.flights[a.flight];
    RowOf(codec, f.p, f.injected, f.body, a.o, a.fates)
  }

  function EventAt(t: Table, codec: Codec, s: State, a: Action): Meter.Event
    requires CanEnd(s, a)
  {
    var f := s.flights[a.flight];
    EventOf(t, f.p, f.tenant, f.feature, Metered(codec, s, a))
  }

  /** The command that an action sends to the store. */
  function Sends(t: Table, codec: Codec, s: State, a: Action): Command {
    match a
    case Begin(_, enforced, p, tenant, _, original, clock, link) =>
      if Prepared(codec, p, original).Panic? then Nothing
      else FirstCommand(t, codec, enforced, p, tenant, BodyOf(codec, p, original), clock, link)
    case End(_, _, _, link, _) =>
      if !CanEnd(s, a) then Nothing else LastCommand(s.flights[a.flight].res, EventAt(t, codec, s, a).cost, link)
    case Crash(_) => Nothing
    case Tick(seconds) => Waiting(seconds)
  }

  /** The command makes a reservation. */
  predicate Makes(st: Store, c: Command) {
    c.Reserving? && ScriptAllows(st, c.key, c.limit, c.est)
  }

  /** The flights that an action leaves. */
  function FlightsAfter(t: Table, codec: Codec, s: State, a: Action): seq<Flight> {
    match a
    case Begin(_, _, _, _, _, _, _, _) =>
      var v := Verdicted(t, codec, s, a);
      if Prepared(codec, a.p, a.original).Panic? || !v.Proceed? then s.flights
      else
        s.flights + [Flight(a.replica, a.p, a.tenant, a.feature, Prepared(codec, a.p, a.original).Injected?,
                            BodyOf(codec, a.p, a.original), a.clock, v.res, s.made, true)]
    case End(_, _, _, _, _) =>
      if !CanEnd(s, a) then s.flights else s.flights[a.flight := s.flights[a.flight].(open := false)]
    case Crash(replica) => Downed(s.flights, replica)
    case Tick(_) => s.flights
  }

  /** A crash ends the requests of its replica, without a trace. */
  function Downed(fs: seq<Flight>, replica: nat): (fs': seq<Flight>)
    ensures |fs'| == |fs|
  {
    seq(|fs|, i requires 0 <= i < |fs| => if fs[i].replica == replica then fs[i].(open := false) else fs[i])
  }

  function FiledAs(f: Flight, event: Meter.Event): Filed {
    Filed(f.replica, event, f.clock, ReservedBy(f))
  }

  function FiledAfter(t: Table, codec: Codec, s: State, a: Action): seq<Filed> {
    if CanEnd(s, a) && a.submits
    then s.filed + [FiledAs(s.flights[a.flight], EventAt(t, codec, s, a))]
    else s.filed
  }

  /** One action of one request, a crash, or time; what cannot happen in a state leaves it as it is. */
  function Step(t: Table, codec: Codec, s: State, a: Action): State {
    var c := Sends(t, codec, s, a);
    State(Apply(s.store, c), s.made + (if Makes(s.store, c) then 1 else 0),
          FlightsAfter(t, codec, s, a), FiledAfter(t, codec, s, a))
  }

  function After(t: Table, codec: Codec, s: State, actions: seq<Action>): State {
    if actions == [] then s
    else Step(t, codec, After(t, codec, s, actions[..|actions| - 1]), actions[|actions| - 1])
  }

  function Run(t: Table, codec: Codec, actions: seq<Action>): State {
    After(t, codec, INIT, actions)
  }

  /** A crash ends every request of its replica, and no other. */
  lemma DownedIs(fs: seq<Flight>, replica: nat, i: nat)
    requires i < |fs|
    ensures var f := Downed(fs, replica)[i];
      f == fs[i].(open := f.open) && (f.open <==> fs[i].open && fs[i].replica != replica)
  {
  }

  // --- Every run is a run of the protocol ---

  /** The event of the protocol that an action is, if it is any. */
  function Image(t: Table, codec: Codec, s: State, a: Action): Option<Protocol.Event> {
    match a
    case Begin(replica, enforced, p, tenant, _, original, clock, link) =>
      if Prepared(codec, p, original).Panic? || tenant.budget.None? || !enforced then None
      else
        var est := EstimateMicro(t, codec, p, BodyOf(codec, p, original));
        Some(Protocol.Reserve(replica, tenant.id, clock, ToMicro(tenant.budget.value), est, link))
    case End(_, _, _, link, submits) =>
      if !CanEnd(s, a) then None
      else
        var f, cost := s.flights[a.flight], EventAt(t, codec, s, a).cost;
        if f.res.active then Some(Protocol.Settle(f.slot, cost, link, submits))
        else if submits then Some(Protocol.Unreserved(f.tenant.id, f.clock, cost))
        else None
    case Crash(replica) => Some(Protocol.Crash(replica))
    case Tick(seconds) => Some(Protocol.Tick(seconds))
  }

  function ImageStep(t: Table, codec: Codec, s: State, ps: Protocol.State, a: Action): Protocol.State {
    if Image(t, codec, s, a).Some? then Protocol.Step(ps, Image(t, codec, s, a).value) else ps
  }

  function Images(t: Table, codec: Codec, actions: seq<Action>): seq<Protocol.Event> {
    if actions == [] then []
    else
      var before := actions[..|actions| - 1];
      var e := Image(t, codec, Run(t, codec, before), actions[|actions| - 1]);
      if e.Some? then Images(t, codec, before) + [e.value] else Images(t, codec, before)
  }

  /** The flight's reservation is the request of the protocol with its number. */
  predicate Booked(t: Table, codec: Codec, f: Flight, reqs: seq<Protocol.Request>) {
    && f.slot < |reqs| && f.tenant.budget.Some?
    && f.res == Reservation(true, MonthKey(f.tenant.id, f.clock), EstimateMicro(t, codec, f.p, f.body))
    && var r := reqs[f.slot];
    && r.key == f.res.key && r.est == f.res.est && r.limit == ToMicro(f.tenant.budget.value) && r.replica == f.replica
    && (f.open <==> r.status.Outstanding?)
  }

  /** The submitted event is the entry of the protocol's log. */
  predicate Entered(d: Filed, e: Protocol.Entry) {
    && e.cost == d.event.cost && e.key == MonthKey(d.event.tenant, d.clock)
    && (e.req.Some? <==> d.reserved.Some?) && (d.reserved.Some? ==> e.est == d.reserved.value)
  }

  ghost predicate FlightsMatch(t: Table, codec: Codec, s: State, reqs: seq<Protocol.Request>) {
    && |reqs| == s.made
    && (forall i :: 0 <= i < |s.flights| && s.flights[i].res.active ==> Booked(t, codec, s.flights[i], reqs))
    && (forall i, j :: 0 <= i < j < |s.flights| && s.flights[i].res.active && s.flights[j].res.active ==>
          s.flights[i].slot != s.flights[j].slot)
  }

  ghost predicate FilesMatch(filed: seq<Filed>, log: seq<Protocol.Entry>) {
    |log| == |filed| && forall i :: 0 <= i < |filed| ==> Entered(filed[i], log[i])
  }

  ghost predicate Simulates(t: Table, codec: Codec, s: State, ps: Protocol.State) {
    ps.store == s.store && FlightsMatch(t, codec, s, ps.reqs) && FilesMatch(s.filed, ps.log)
  }

  /** What a budget check is, here and in the protocol: it makes a reservation or not, with a flight that is
      booked if it was answered. */
  lemma BeginIsReserve(t: Table, codec: Codec, s: State, ps: Protocol.State, a: Action)
    requires a.Begin? && ps.store == s.store && |ps.reqs| == s.made
    ensures var s', ps' := Step(t, codec, s, a), ImageStep(t, codec, s, ps, a);
      && ps'.store == s'.store && |ps'.reqs| == s'.made && ps.reqs <= ps'.reqs
      && ps'.log == ps.log && s'.filed == s.filed
      && (s'.flights == s.flights
          || (&& |s'.flights| == |s.flights| + 1 && s.flights <= s'.flights
              && var f := s'.flights[|s.flights|];
              f.res.active ==> Booked(t, codec, f, ps'.reqs) && f.slot == |ps.reqs|))
      && |ps'.reqs| <= |ps.reqs| + 1
      && (|ps'.reqs| > |ps.reqs| && ps'.reqs[|ps.reqs|].status.Outstanding? ==>
            |s'.flights| > |s.flights| && s'.flights[|s.flights|].res.active)
      && (|s'.flights| > |s.flights| && s'.flights[|s.flights|].res.active ==>
            |ps'.reqs| > |ps.reqs| && s'.flights[|s.flights|].open)
  {
    hide MonthKey, ToMicro, Exceeds, EstimateMicro, Double, Prepared, AfterReserve;
    if Image(t, codec, s, a).Some? {
      EventIsCommand(ps, Image(t, codec, s, a).value);
    }
  }

  lemma SimulatesBegin(t: Table, codec: Codec, s: State, ps: Protocol.State, a: Action)
    requires Simulates(t, codec, s, ps) && a.Begin?
    ensures Simulates(t, codec, Step(t, codec, s, a), ImageStep(t, codec, s, ps, a))
  {
    hide Step, ImageStep, MonthKey, ToMicro, EstimateMicro, FilesMatch;
    BeginIsReserve(t, codec, s, ps, a);
    var fs, reqs := Step(t, codec, s, a).flights, ImageStep(t, codec, s, ps, a).reqs;
    forall i | 0 <= i < |s.flights| && s.flights[i].res.active ensures Booked(t, codec, s.flights[i], reqs) {
      assert Booked(t, codec, s.flights[i], ps.reqs) && reqs[s.flights[i].slot] == ps.reqs[s.flights[i].slot];
    }
    assert forall i :: 0 <= i < |s.flights| ==> fs[i] == s.flights[i];
  }

  /** A flight that ends leaves the others booked as they were. */
  lemma FlightsEnd(t: Table, codec: Codec, s: State, s': State, i: nat, reqs: seq<Protocol.Request>,
      reqs': seq<Protocol.Request>)
    requires FlightsMatch(t, codec, s, reqs) && i < |s.flights|
    requires s'.made == s.made && s'.flights == s.flights[i := s.flights[i].(open := false)]
    requires var slot := s.flights[i].slot;
      if s.flights[i].res.active
      then |reqs'| == |reqs| && (forall k :: 0 <= k < |reqs| && k != slot ==> reqs'[k] == reqs[k])
           && (slot < |reqs| ==>
                 !reqs'[slot].status.Outstanding? && reqs'[slot] == reqs[slot].(status := reqs'[slot].status))
      else reqs' == reqs
    ensures FlightsMatch(t, codec, s', reqs')
  {
    hide MonthKey, ToMicro, EstimateMicro;
    forall j | 0 <= j < |s'.flights| && s'.flights[j].res.active ensures Booked(t, codec, s'.flights[j], reqs') {
      assert Booked(t, codec, s.flights[j], reqs);
      assert s'.flights[j].slot == s.flights[j].slot;
    }
  }

  lemma FilesEnd(filed: seq<Filed>, log: seq<Protocol.Entry>, d: Filed, e: Protocol.Entry)
    requires FilesMatch(filed, log) && Entered(d, e)
    ensures FilesMatch(filed + [d], log + [e])
  {
    hide Entered;
  }

  /** What the end of a request with a reservation is, here and in the protocol. */
  lemma EndIsSettle(t: Table, codec: Codec, s: State, ps: Protocol.State, a: Action)
    requires CanEnd(s, a) && s.flights[a.flight].res.active && Booked(t, codec, s.flights[a.flight], ps.reqs)
    ensures var e := Image(t, codec, s, a);
      && e.Some?
      && e.value == Protocol.Settle(s.flights[a.flight].slot, EventAt(t, codec, s, a).cost, a.link, a.submits)
      && Protocol.CanSettle(ps, e.value) && CommandOf(ps, e.value) == Sends(t, codec, s, a)
    ensures EventAt(t, codec, s, a).tenant == s.flights[a.flight].tenant.id
    ensures !Makes(s.store, Sends(t, codec, s, a))
  {
    hide MonthKey, ToMicro, EstimateMicro, Metered, RowCost;
  }

  lemma SimulatesSettle(t: Table, codec: Codec, s: State, ps: Protocol.State, a: Action)
    requires Simulates(t, codec, s, ps) && CanEnd(s, a) && s.flights[a.flight].res.active
    ensures Simulates(t, codec, Step(t, codec, s, a), ImageStep(t, codec, s, ps, a))
  {
    var f, e := s.flights[a.flight], Image(t, codec, s, a).value;
    assert Booked(t, codec, f, ps.reqs);
    hide FlightsMatch, FilesMatch, MonthKey, ToMicro, EstimateMicro, Apply, Sends, EventAt, Image, CommandOf, Makes,
      Protocol.Step, Protocol.Reconciles;
    EndIsSettle(t, codec, s, ps, a);
    EventIsCommand(ps, e);
    Protocol.SettleEffect(ps, e, "");
    Ledgers.LogOfSettle(ps, e);
    FlightsEnd(t, codec, s, Step(t, codec, s, a), a.flight, ps.reqs, Protocol.Step(ps, e).reqs);
    if a.submits {
      FilesEnd(s.filed, ps.log, FiledAs(f, EventAt(t, codec, s, a)), Ledgers.EntryFor(ps, e));
    }
  }

  lemma SimulatesUnreserved(t: Table, codec: Codec, s: State, ps: Protocol.State, a: Action)
    requires Simulates(t, codec, s, ps) && CanEnd(s, a) && !s.flights[a.flight].res.active
    ensures Simulates(t, codec, Step(t, codec, s, a), ImageStep(t, codec, s, ps, a))
  {
    hide FlightsMatch, FilesMatch, MonthKey, Sends, EventAt, ImageStep;
    NotReserved(t, codec, s, ps, a);
    FlightsEnd(t, codec, s, Step(t, codec, s, a), a.flight, ps.reqs, ps.reqs);
    if a.submits {
      var f := s.flights[a.flight];
      FilesEnd(s.filed, ps.log, FiledAs(f, EventAt(t, codec, s, a)),
               Protocol.Entry(None, MonthKey(f.tenant.id, f.clock), 0, EventAt(t, codec, s, a).cost));
    }
  }

  lemma NotReserved(t: Table, codec: Codec, s: State, ps: Protocol.State, a: Action)
    requires CanEnd(s, a) && !s.flights[a.flight].res.active
    ensures var ps' := ImageStep(t, codec, s, ps, a);
      ps'.store == ps.store && ps'.reqs == ps.reqs
    ensures var f := s.flights[a.flight];
      ImageStep(t, codec, s, ps, a).log ==
        if a.submits
        then ps.log + [Protocol.Entry(None, MonthKey(f.tenant.id, f.clock), 0, EventAt(t, codec, s, a).cost)]
        else ps.log
    ensures Step(t, codec, s, a).store == s.store && Step(t, codec, s, a).made == s.made
    ensures EventAt(t, codec, s, a).tenant == s.flights[a.flight].tenant.id
  {
    hide MonthKey, Metered, RowCost;
  }

  lemma SimulatesCrash(t: Table, codec: Codec, s: State, ps: Protocol.State, a: Action)
    requires Simulates(t, codec, s, ps) && a.Crash?
    ensures Simulates(t, codec, Step(t, codec, s, a), ImageStep(t, codec, s, ps, a))
  {
    hide MonthKey, ToMicro, EstimateMicro, FilesMatch;
    var fs, reqs := Downed(s.flights, a.replica), Protocol.Stranding(ps.reqs, a.replica);
    forall i | 0 <= i < |fs| && fs[i].res.active ensures Booked(t, codec, fs[i], reqs) {
      assert Booked(t, codec, s.flights[i], ps.reqs);
    }
    hide Booked, Downed, Protocol.Stranding;
    CrashStep(t, codec, s, ps, a);
    forall i, j | 0 <= i < j < |fs| && fs[i].res.active && fs[j].res.active ensures fs[i].slot != fs[j].slot {
      DownedAt(s.flights, a.replica, i);
      DownedAt(s.flights, a.replica, j);
    }
  }

  lemma DownedAt(fs: seq<Flight>, replica: nat, i: nat)
    requires i < |fs|
    ensures var f := Downed(fs, replica)[i];
      f.slot == fs[i].slot && f.res == fs[i].res
  {
  }

  lemma CrashStep(t: Table, codec: Codec, s: State, ps: Protocol.State, a: Action)
    requires a.Crash?
    ensures Step(t, codec, s, a) == s.(flights := Downed(s.flights, a.replica))
    ensures ImageStep(t, codec, s, ps, a) == ps.(reqs := Protocol.Stranding(ps.reqs, a.replica))
  {
    hide Downed, Protocol.Stranding;
  }

  lemma SimulatesStep(t: Table, codec: Codec, s: State, ps: Protocol.State, a: Action)
    requires Simulates(t, codec, s, ps)
    ensures Simulates(t, codec, Step(t, codec, s, a), ImageStep(t, codec, s, ps, a))
  {
    match a
    case Begin(_, _, _, _, _, _, _, _) => SimulatesBegin(t, codec, s, ps, a);
    case End(_, _, _, _, _) =>
      if CanEnd(s, a) {
        if s.flights[a.flight].res.active {
          SimulatesSettle(t, codec, s, ps, a);
        } else {
          SimulatesUnreserved(t, codec, s, ps, a);
        }
      }
    case Crash(_) => SimulatesCrash(t, codec, s, ps, a);
    case Tick(_) =>
      hide FlightsMatch, FilesMatch;
  }

  /** Every interleaving of requests, crashes and time, with every fate of their commands, is a run of the
      protocol: with the same store, with a request for each reservation made, outstanding while the gateway's
      request is open, and with an entry for each metering event, of the same cost, tenant and month. */
  lemma {:induction false} RunIsProtocol(t: Table, codec: Codec, actions: seq<Action>)
    ensures Simulates(t, codec, Run(t, codec, actions), Protocol.Run(Images(t, codec, actions)))
  {
    hide Step, Image, Simulates, Protocol.Step;
    if actions == [] {
      NothingYet(t, codec);
    } else {
      var before, a := actions[..|actions| - 1], actions[|actions| - 1];
      RunIsProtocol(t, codec, before);
      SimulatesStep(t, codec, Run(t, codec, before), Protocol.Run(Images(t, codec, before)), a);
      ImagesStep(t, codec, actions);
    }
  }

  lemma NothingYet(t: Table, codec: Codec)
    ensures Simulates(t, codec, Run(t, codec, []), Protocol.Run(Images(t, codec, [])))
  {
  }

  lemma ImagesStep(t: Table, codec: Codec, actions: seq<Action>)
    requires actions != []
    ensures var before := actions[..|actions| - 1];
      Protocol.Run(Images(t, codec, actions))
      == ImageStep(t, codec, Run(t, codec, before), Protocol.Run(Images(t, codec, before)), actions[|actions| - 1])
  {
    hide Image, Protocol.Run, Run;
    var before := actions[..|actions| - 1];
    var e := Image(t, codec, Run(t, codec, before), actions[|actions| - 1]);
    if e.Some? {
      Protocol.RunSnoc(Images(t, codec, before), e.value);
    }
  }

  // --- The store sees the commands, and one request is Forward ---

  function Commands(t: Table, codec: Codec, s: State, actions: seq<Action>): seq<Command> {
    if actions == [] then []
    else
      var before := actions[..|actions| - 1];
      Commands(t, codec, s, before) + [Sends(t, codec, After(t, codec, s, before), actions[|actions| - 1])]
  }

  /** The store after a run is the store after its commands, in their order. */
  lemma {:induction false} StoreIsCommands(t: Table, codec: Codec, s: State, actions: seq<Action>)
    ensures After(t, codec, s, actions).store == ApplyAll(s.store, Commands(t, codec, s, actions))
  {
    hide Sends, Apply;
    if actions != [] {
      var cs := Commands(t, codec, s, actions);
      StoreIsCommands(t, codec, s, actions[..|actions| - 1]);
      assert cs[..|cs| - 1] == Commands(t, codec, s, actions[..|actions| - 1]);
    }
  }

  function CommandsOf(es: seq<Protocol.Event>): seq<Command> {
    if es == [] then []
    else CommandsOf(es[..|es| - 1]) + [CommandOf(Protocol.Run(es[..|es| - 1]), es[|es| - 1])]
  }

  /** The same of the protocol. */
  lemma {:induction false} ProtocolIsCommands(es: seq<Protocol.Event>)
    ensures Protocol.Run(es).store == ApplyAll(INIT.store, CommandsOf(es))
  {
    hide CommandOf, Apply, Protocol.Step;
    if es != [] {
      var cs := CommandsOf(es);
      ProtocolIsCommands(es[..|es| - 1]);
      EventIsCommand(Protocol.Run(es[..|es| - 1]), es[|es| - 1]);
      assert cs[..|cs| - 1] == CommandsOf(es[..|es| - 1]);
    }
  }

  /** The actions leave flight i alone: none ends it, and its replica does not crash. */
  predicate Spares(actions: seq<Action>, i: nat, replica: nat) {
    forall n :: 0 <= n < |actions| ==>
      && (actions[n].End? ==> actions[n].flight != i)
      && (actions[n].Crash? ==> actions[n].replica != replica)
  }

  lemma {:induction false} Spared(t: Table, codec: Codec, s: State, actions: seq<Action>, i: nat)
    requires i < |s.flights| && Spares(actions, i, s.flights[i].replica)
    ensures var s' := After(t, codec, s, actions);
      i < |s'.flights| && s'.flights[i] == s.flights[i]
  {
    hide Step;
    if actions != [] {
      Spared(t, codec, s, actions[..|actions| - 1], i);
      FlightStays(t, codec, After(t, codec, s, actions[..|actions| - 1]), actions[|actions| - 1], i);
    }
  }

  lemma FlightStays(t: Table, codec: Codec, s: State, a: Action, i: nat)
    requires i < |s.flights|
    requires (a.End? ==> a.flight != i) && (a.Crash? ==> a.replica != s.flights[i].replica)
    ensures i < |Step(t, codec, s, a).flights| && Step(t, codec, s, a).flights[i] == s.flights[i]
  {
    hide Verdicted, Prepared, Sends, FiledAfter;
  }

  /** A request among any others: its budget check, what the others do meanwhile, and its end leave the store
      and submit the event that Gateway.Proxy.Forward promises, the others' commands being those of their
      own actions. */
  lemma ForwardAmongOthers(t: Table, codec: Codec, s: State, begin: Action, others: seq<Action>, end: Action)
    requires begin.Begin? && end.End? && end.flight == |s.flights| && Spares(others, |s.flights|, begin.replica)
    requires !Prepared(codec, begin.p, begin.original).Panic? && Verdicted(t, codec, s, begin).Proceed?
    ensures var inj := Prepared(codec, begin.p, begin.original);
      var body := if inj.Injected? then inj.body else begin.original;
      var v := VerdictOf(t, codec, begin.enforced, begin.p, begin.tenant, body, begin.clock, s.store, begin.link);
      var first := FirstCommand(t, codec, begin.enforced, begin.p, begin.tenant, body, begin.clock, begin.link);
      var row := RowOf(codec, begin.p, inj.Injected?, body, end.o, end.fates);
      var event := EventOf(t, begin.p, begin.tenant, begin.feature, row);
      var last := LastCommand(v.res, event.cost, end.link);
      var s1 := Step(t, codec, s, begin);
      var s2 := After(t, codec, s1, others);
      var s3 := Step(t, codec, s2, end);
      && s3.store == Apply(ApplyAll(Apply(s.store, first), Commands(t, codec, s1, others)), last)
      && v == Verdicted(t, codec, s, begin)
      && var filed := Filed(begin.replica, event, begin.clock, if v.res.active then Some(v.res.est) else None);
      s3.filed == if end.submits then s2.filed + [filed] else s2.filed
  {
    hide Apply, ApplyAll, Commands, After, VerdictOf, FirstCommand, LastCommand, RowOf, EventOf, Prepared;
    var s1 := Step(t, codec, s, begin);
    assert s1.flights[|s.flights|].open;
    hide Verdicted;
    Spared(t, codec, s1, others, |s.flights|);
    StoreIsCommands(t, codec, s1, others);
  }
}
