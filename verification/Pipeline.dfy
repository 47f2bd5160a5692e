/** From the budget check to the sink: the fleet with the batch writer of each of its replicas. */
module Pipeline {
  import opened Sums
  import opened Json
  import opened Month
  import opened Prices
  import opened Budget
  import opened Fleet
  import Calls
  import Gateway
  import Ledgers
  import Meter
  import Protocol
  import TenantCap

  datatype State = Whole(fleet: Fleet.State, writers: map<nat, Meter.State>)

  const START := Whole(Fleet.INIT, map[])

  function WriterOf(s: State, replica: nat): Meter.State {
    if replica in s.writers then s.writers[replica] else Meter.INIT
  }

  /** A request's action, a crash or time; or a step of a replica's writer. */
  datatype Move = Gate(a: Action) | Write(replica: nat, m: Meter.Action)

  /** An end submits its event if the writer of its replica has room for it, and is reached at all. */
  function Submitting(s: State, a: Action): Action {
    if CanEnd(s.fleet, a) && |WriterOf(s, s.fleet.flights[a.flight].replica).ch| >= Meter.BUFFER
    then a.(submits := false) else a
  }

  /** The writer of a replica that an action reaches, and how: the end of a request puts its event there. */
  function WritersAfter(t: Table, codec: Codec, size: nat, s: State, a: Action): map<nat, Meter.State> {
    if CanEnd(s.fleet, a) && a.submits then
      var r := s.fleet.flights[a.flight].replica;
      s.writers[r := Meter.Step(WriterOf(s, r), size, Meter.Enqueue(EventAt(t, codec, s.fleet, a)))]
    else if a.Crash? then s.writers - {a.replica} // its channel and its batch are lost
    else s.writers
  }

  function Next(t: Table, codec: Codec, size: nat, s: State, v: Move): State {
    match v
    case Gate(a) =>
      Whole(Fleet.Step(t, codec, s.fleet, Submitting(s, a)), WritersAfter(t, codec, size, s, a))
    case Write(r, m) =>
      if m.Enqueue? then s else s.(writers := s.writers[r := Meter.Step(WriterOf(s, r), size, m)])
  }

  /** A crash loses what the writer of its replica had not handed over, and leaves the other writers alone. */
  lemma CrashLoses(t: Table, codec: Codec, size: nat, s: State, replica: nat, other: nat)
    ensures var s' := Next(t, codec, size, s, Gate(Crash(replica)));
      && WriterOf(s', replica).ch == [] && WriterOf(s', replica).batch == []
      && (other != replica ==> WriterOf(s', other) == WriterOf(s, other))
  {
    hide Fleet.Step;
  }

  function Course(t: Table, codec: Codec, size: nat, moves: seq<Move>): State {
    if moves == [] then START
    else Next(t, codec, size, Course(t, codec, size, moves[..|moves| - 1]), moves[|moves| - 1])
  }

  // --- Both parts are what they were alone ---

  /** The actions of the fleet in it. */
  function Actions(t: Table, codec: Codec, size: nat, moves: seq<Move>): seq<Action> {
    if moves == [] then []
    else
      var before, v := moves[..|moves| - 1], moves[|moves| - 1];
      if v.Gate? then Actions(t, codec, size, before) + [Submitting(Course(t, codec, size, before), v.a)]
      else Actions(t, codec, size, before)
  }

  lemma {:induction false} FleetOf(t: Table, codec: Codec, size: nat, moves: seq<Move>)
    ensures Course(t, codec, size, moves).fleet == Fleet.Run(t, codec, Actions(t, codec, size, moves))
  {
    if moves != [] {
      hide Fleet.Step, WritersAfter, Submitting, Meter.Step;
      var before, v := moves[..|moves| - 1], moves[|moves| - 1];
      FleetOf(t, codec, size, before);
      if v.Gate? {
        var acts := Actions(t, codec, size, moves);
        assert acts[..|acts| - 1] == Actions(t, codec, size, before);
      }
    }
  }

  /** What the move does to the writer of a replica, if anything. */
  function Touch(t: Table, codec: Codec, s: State, v: Move, replica: nat): Option<Meter.Action> {
    match v
    case Gate(a) =>
      if CanEnd(s.fleet, a) && a.submits && s.fleet.flights[a.flight].replica == replica
      then Some(Meter.Enqueue(EventAt(t, codec, s.fleet, a))) else None
    case Write(r, m) => if r == replica && !m.Enqueue? then Some(m) else None
  }

  /** The steps of the writer of a replica. */
  function Steps(t: Table, codec: Codec, size: nat, moves: seq<Move>, replica: nat): seq<Meter.Action> {
    if moves == [] then []
    else
      var before := moves[..|moves| - 1];
      var m := Touch(t, codec, Course(t, codec, size, before), moves[|moves| - 1], replica);
      if m.Some? then Steps(t, codec, size, before, replica) + [m.value] else Steps(t, codec, size, before, replica)
  }

  predicate Crashes(v: Move, replica: nat) {
    v.Gate? && v.a.Crash? && v.a.replica == replica
  }

  ghost predicate Survives(moves: seq<Move>, replica: nat) {
    forall n :: 0 <= n < |moves| ==> !Crashes(moves[n], replica)
  }

  lemma WriterStep(t: Table, codec: Codec, size: nat, s: State, v: Move, replica: nat)
    requires !Crashes(v, replica)
    ensures var m := Touch(t, codec, s, v, replica);
      WriterOf(Next(t, codec, size, s, v), replica)
      == if m.Some? then Meter.Step(WriterOf(s, replica), size, m.value) else WriterOf(s, replica)
  {
    hide Fleet.Step, Meter.Step, EventAt;
  }

  /** The writer of a replica that does not crash goes through a run of its own machine. */
  lemma {:induction false} WriterRun(t: Table, codec: Codec, size: nat, moves: seq<Move>, replica: nat)
    requires Survives(moves, replica)
    ensures WriterOf(Course(t, codec, size, moves), replica) == Meter.After(size, Steps(t, codec, size, moves, replica))
  {
    if moves != [] {
      hide Next, Meter.Step, Touch, WriterOf, Crashes;
      var before, v := moves[..|moves| - 1], moves[|moves| - 1];
      var s := Course(t, codec, size, before);
      WriterRun(t, codec, size, before, replica);
      WriterStep(t, codec, size, s, v, replica);
      if Touch(t, codec, s, v, replica).Some? {
        Meter.AfterSnoc(size, Steps(t, codec, size, before, replica), Touch(t, codec, s, v, replica).value);
      }
    }
  }

  /** The events a replica has submitted, in order. */
  function FiledBy(filed: seq<Filed>, replica: nat): seq<Meter.Event> {
    if filed == [] then []
    else
      var d := filed[|filed| - 1];
      if d.replica == replica then FiledBy(filed[..|filed| - 1], replica) + [d.event]
      else FiledBy(filed[..|filed| - 1], replica)
  }

  lemma FiledSnoc(filed: seq<Filed>, d: Filed, replica: nat)
    ensures FiledBy(filed + [d], replica)
         == if d.replica == replica then FiledBy(filed, replica) + [d.event] else FiledBy(filed, replica)
  {
    assert (filed + [d])[..|filed|] == filed;
  }

  lemma AcceptedStep(t: Table, codec: Codec, size: nat, s: State, v: Move, replica: nat)
    requires WriterOf(s, replica).accepted == FiledBy(s.fleet.filed, replica) && !Crashes(v, replica)
    ensures var s' := Next(t, codec, size, s, v);
      WriterOf(s', replica).accepted == FiledBy(s'.fleet.filed, replica)
  {
    WriterStep(t, codec, size, s, v, replica);
    if v.Gate? && CanEnd(s.fleet, v.a) && v.a.submits {
      FiledSnoc(s.fleet.filed, FiledAs(s.fleet.flights[v.a.flight], EventAt(t, codec, s.fleet, v.a)), replica);
      SameEvent(t, codec, s, v.a);
    }
    hide EventAt, FlightsAfter, Sends, Gateway.Apply, Makes, WriterOf, FiledBy;
  }

  lemma SameEvent(t: Table, codec: Codec, s: State, a: Action)
    requires CanEnd(s.fleet, a)
    ensures CanEnd(s.fleet, Submitting(s, a)) && Submitting(s, a).flight == a.flight
    ensures EventAt(t, codec, s.fleet, Submitting(s, a)) == EventAt(t, codec, s.fleet, a)
  {
    hide Calls.RowOf, Gateway.EventOf;
  }

  /** What a writer has accepted is what its replica has filed. */
  lemma {:induction false} AcceptedIsFiled(t: Table, codec: Codec, size: nat, moves: seq<Move>, replica: nat)
    requires Survives(moves, replica)
    ensures var s := Course(t, codec, size, moves);
      WriterOf(s, replica).accepted == FiledBy(s.fleet.filed, replica)
  {
    hide Next, WriterOf, Crashes;
    if moves == [] {
      NoneAccepted(replica);
    } else {
      AcceptedIsFiled(t, codec, size, moves[..|moves| - 1], replica);
      AcceptedStep(t, codec, size, Course(t, codec, size, moves[..|moves| - 1]), moves[|moves| - 1], replica);
    }
  }

  lemma NoneAccepted(replica: nat)
    ensures WriterOf(START, replica).accepted == FiledBy(START.fleet.filed, replica)
  {
  }

  /** The writer has ended, and accepted nothing after its drain had found the channel empty. */
  ghost predicate Drained(t: Table, codec: Codec, size: nat, moves: seq<Move>, replica: nat) {
    var w, steps := WriterOf(Course(t, codec, size, moves), replica), Steps(t, codec, size, moves, replica);
    w.at.Done? && Meter.AcceptedAtClose(size, steps) == |w.accepted|
  }

  /** Exactly once, end to end: when a replica that has not crashed has shut down, the batches handed to its
      sink are the events it filed before its drain ended, in order; all of them if none came later. */
  lemma SinkHasFiled(t: Table, codec: Codec, size: nat, moves: seq<Move>, replica: nat)
    requires size > 0 && Survives(moves, replica)
    requires WriterOf(Course(t, codec, size, moves), replica).at.Done?
    ensures var s := Course(t, codec, size, moves);
      var n := Meter.AcceptedAtClose(size, Steps(t, codec, size, moves, replica));
      var filed, sunk := FiledBy(s.fleet.filed, replica), Meter.Flat(WriterOf(s, replica).handed);
      && n <= |filed| && sunk == filed[..n]
      && (sunk == filed <==> Drained(t, codec, size, moves, replica))
  {
    hide Course, WriterOf, FiledBy, Steps, Meter.After, Meter.AcceptedAtClose, Meter.Flat, Crashes;
    WriterRun(t, codec, size, moves, replica);
    AcceptedIsFiled(t, codec, size, moves, replica);
    Meter.ShutdownDrains(size, Steps(t, codec, size, moves, replica));
  }

  // --- The counter and the sinks ---

  /** The micro-USD of a tenant's event. */
  function MicroFor(tenant: int): Meter.Event -> int {
    (e: Meter.Event) => if e.tenant == tenant then ToMicro(e.cost) else 0
  }

  function FiledFor(tenant: int): Filed -> int {
    (d: Filed) => if d.event.tenant == tenant then ToMicro(d.event.cost) else 0
  }

  /** The micro-USD the tenant's events have in the sinks of the first n replicas. */
  function Sunk(s: State, tenant: int, n: nat): int {
    if n == 0 then 0 else Sunk(s, tenant, n - 1) + Sum(Meter.Flat(WriterOf(s, n - 1).handed), MicroFor(tenant))
  }

  function FiledByAll(filed: seq<Filed>, tenant: int, n: nat): int {
    if n == 0 then 0 else FiledByAll(filed, tenant, n - 1) + Sum(FiledBy(filed, n - 1), MicroFor(tenant))
  }

  lemma {:induction false} FiledByAllSnoc(filed: seq<Filed>, d: Filed, tenant: int, n: nat)
    ensures FiledByAll(filed + [d], tenant, n)
         == FiledByAll(filed, tenant, n) + (if d.replica < n then MicroFor(tenant)(d.event) else 0)
  {
    hide MicroFor, FiledBy;
    if n > 0 {
      FiledByAllSnoc(filed, d, tenant, n - 1);
      FiledSnoc(filed, d, n - 1);
      SumAppend(FiledBy(filed, n - 1), d.event, MicroFor(tenant));
    }
  }

  lemma {:induction false} FiledByAllNone(tenant: int, n: nat)
    ensures FiledByAll([], tenant, n) == 0
  {
    if n > 0 {
      FiledByAllNone(tenant, n - 1);
    }
  }

  /** Whatever is filed is filed by some replica. */
  lemma {:induction false} FiledByReplicas(filed: seq<Filed>, tenant: int, n: nat)
    requires forall i :: 0 <= i < |filed| ==> filed[i].replica < n
    ensures FiledByAll(filed, tenant, n) == Sum(filed, FiledFor(tenant))
  {
    hide ToMicro, FiledByAll;
    if filed == [] {
      FiledByAllNone(tenant, n);
    } else {
      var k := |filed| - 1;
      FiledByReplicas(filed[..k], tenant, n);
      FiledByAllSnoc(filed[..k], filed[k], tenant, n);
      assert filed[..k] + [filed[k]] == filed;
    }
  }

  /** All writers of the first n replicas have ended with nothing late, and none of them has crashed. */
  ghost predicate ShutDown(t: Table, codec: Codec, size: nat, moves: seq<Move>, n: nat) {
    forall r: nat :: r < n ==> Drained(t, codec, size, moves, r) && Survives(moves, r)
  }

  lemma {:induction false} SunkIsFiled(t: Table, codec: Codec, size: nat, moves: seq<Move>, tenant: int, n: nat)
    requires size > 0 && ShutDown(t, codec, size, moves, n)
    ensures var s := Course(t, codec, size, moves);
      Sunk(s, tenant, n) == FiledByAll(s.fleet.filed, tenant, n)
  {
    hide Course, WriterOf, FiledBy, Steps, MicroFor, Survives, Meter.Flat, Meter.AcceptedAtClose;
    if n > 0 {
      SunkIsFiled(t, codec, size, moves, tenant, n - 1);
      assert Drained(t, codec, size, moves, n - 1);
      SinkHasFiled(t, codec, size, moves, n - 1);
    }
  }

  /** A tenant's events are all of one month, and of requests that had reserved. */
  ghost predicate OnlyMonth(filed: seq<Filed>, tenant: int, m: nat) {
    forall i :: 0 <= i < |filed| && filed[i].event.tenant == tenant ==>
      MonthOf(filed[i].clock) == m && filed[i].reserved.Some?
  }

  lemma FiledIsLogged(filed: seq<Filed>, log: seq<Protocol.Entry>, tenant: int, m: nat)
    requires FilesMatch(filed, log) && OnlyMonth(filed, tenant, m)
    ensures Sum(filed, FiledFor(tenant)) == Sum(log, Ledgers.MicroOf(Ledgers.ReservedOn(KeyText(tenant, m))))
  {
    hide KeyText, ToMicro, MonthOf;
    var key := KeyText(tenant, m);
    forall i | 0 <= i < |filed|
      ensures FiledFor(tenant)(filed[i]) == Ledgers.MicroOf(Ledgers.ReservedOn(key))(log[i])
    {
      assert Entered(filed[i], log[i]);
      if log[i].key == key {
        KeyInjective(filed[i].event.tenant, MonthOf(filed[i].clock), tenant, m);
      }
    }
    SumSame(filed, FiledFor(tenant), log, Ledgers.MicroOf(Ledgers.ReservedOn(key)));
  }

  /** The counter and the sinks agree: when all replicas have shut down with nothing late and nothing
      crashed, and the requests of the tenant's month, its only one, are all reconciled and submitted, the
      counter in Redis is the micro-USD of the tenant's events in the batches handed to the sinks. */
  lemma CounterIsSunk(t: Table, codec: Codec, size: nat, moves: seq<Move>, tenant: int, m: nat, n: nat)
    requires size > 0 && ShutDown(t, codec, size, moves, n)
    requires var s := Course(t, codec, size, moves);
      OnlyMonth(s.fleet.filed, tenant, m) && forall i :: 0 <= i < |s.fleet.filed| ==> s.fleet.filed[i].replica < n
    requires var ps := Protocol.Run(Images(t, codec, Actions(t, codec, size, moves)));
      Protocol.Epoch(ps, KeyText(tenant, m)) == 0 && Ledgers.Quiescent(ps, KeyText(tenant, m))
    ensures var s := Course(t, codec, size, moves);
      Counter(s.fleet.store, KeyText(tenant, m)) == Sunk(s, tenant, n)
  {
    hide Course, Actions, Images, Protocol.Run, Fleet.Run, KeyText, Ledgers.Quiescent, ShutDown, OnlyMonth, Simulates,
      FilesMatch, FiledFor, ToMicro;
    var acts := Actions(t, codec, size, moves);
    var es := Images(t, codec, acts);
    FleetOf(t, codec, size, moves);
    RunIsProtocol(t, codec, acts);
    TenantCap.SameStore(t, codec, Fleet.Run(t, codec, acts), Protocol.Run(es));
    Ledgers.LedgersAgree(es, KeyText(tenant, m));
    FiledIsLogged(Fleet.Run(t, codec, acts).filed, Protocol.Run(es).log, tenant, m);
    FiledByReplicas(Fleet.Run(t, codec, acts).filed, tenant, n);
    SunkIsFiled(t, codec, size, moves, tenant, n);
  }
}
