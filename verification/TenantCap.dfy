/** The cap of a tenant over all runs of the gateway, and exactly when it holds. */
module TenantCap {
  import opened Sums
  import opened Json
  import opened Month
  import opened Prices
  import opened Budget
  import opened Extract
  import opened Calls
  import opened Gateway
  import opened Fleet
  import opened EndToEnd
  import Auth
  import Ledgers
  import Overshoot
  import Protocol

  // --- What is asked of a run ---

  /** If a request of the tenant ends, it is metered for token counts that are not negative. */
  predicate CountedEnd(codec: Codec, s: Fleet.State, a: Action, tenant: int) {
    CanEnd(s, a) && s.flights[a.flight].tenant.id == tenant ==>
      0 <= Metered(codec, s, a).input && 0 <= Metered(codec, s, a).output
  }

  predicate OnTime(s: Fleet.State, a: Action, tenant: int, skew: nat) {
    a.Begin? && a.tenant.id == tenant ==> s.store.now - skew <= a.clock <= s.store.now + skew
  }

  /** The tenant's requests are metered for what was counted, and the replicas' clocks are within `skew` seconds
      of Redis's at their budget checks. Of other tenants nothing is asked. */
  ghost predicate Counted(t: Table, codec: Codec, actions: seq<Action>, tenant: int, skew: nat) {
    forall n :: 0 <= n < |actions| ==>
      && CountedEnd(codec, Fleet.Run(t, codec, actions[..n]), actions[n], tenant)
      && OnTime(Fleet.Run(t, codec, actions[..n]), actions[n], tenant, skew)
  }

  /** The tenant's caps are set and not above the limit, in micro-USD. */
  predicate CappedAt(a: Action, tenant: int, limit: int) {
    a.Begin? && a.tenant.id == tenant && a.tenant.budget.Some? ==> 0 <= ToMicro(a.tenant.budget.value) <= limit
  }

  // --- The sums over what the gateway has ---

  /** The micro-USD of the tenant's events of a month, the month being that of the budget check. */
  function MeteredFor(tenant: int, m: nat): Filed -> int {
    (d: Filed) => if d.event.tenant == tenant && MonthOf(d.clock) == m then ToMicro(d.event.cost) else 0
  }

  /** Those of requests forwarded without a reservation. */
  function UnreservedFor(tenant: int, m: nat): Filed -> int {
    (d: Filed) =>
      if d.event.tenant == tenant && MonthOf(d.clock) == m && d.reserved.None? then ToMicro(d.event.cost) else 0
  }

  /** What its reserved requests were metered for beyond their estimates. */
  function ExcessFor(tenant: int, m: nat): Filed -> int {
    (d: Filed) =>
      if d.event.tenant == tenant && MonthOf(d.clock) == m && d.reserved.Some?
      then Max(0, ToMicro(d.event.cost) - d.reserved.value) else 0
  }

  /** The estimates of the tenant's open requests, on the replicas that are counted. */
  function OpenFor(tenant: int, m: nat, counted: nat -> bool): Flight -> int {
    (f: Flight) =>
      if f.open && f.res.active && f.tenant.id == tenant && MonthOf(f.clock) == m && counted(f.replica)
      then f.res.est else 0
  }

  function OutstandingBy(key: string, counted: nat -> bool): Protocol.Request -> int {
    (r: Protocol.Request) => if r.key == key && r.status.Outstanding? && counted(r.replica) then r.est else 0
  }

  /** Events and entries that match have the same sums. */
  lemma FiledSums(filed: seq<Filed>, log: seq<Protocol.Entry>, tenant: int, m: nat)
    requires FilesMatch(filed, log)
    ensures Sum(filed, MeteredFor(tenant, m)) == Sum(log, Ledgers.MicroOf(Ledgers.MeteredOn(KeyText(tenant, m))))
    ensures Sum(filed, UnreservedFor(tenant, m)) == Sum(log, Ledgers.MicroOf(Ledgers.UnreservedOn(KeyText(tenant, m))))
    ensures Sum(filed, ExcessFor(tenant, m))
         == Sum(log, Ledgers.ValueOf(Ledgers.ReservedOn(KeyText(tenant, m)), Ledgers.Excess))
  {
    hide KeyText, ToMicro, MonthOf;
    var key := KeyText(tenant, m);
    forall i | 0 <= i < |filed|
      ensures log[i].key == key <==> filed[i].event.tenant == tenant && MonthOf(filed[i].clock) == m
    {
      assert Entered(filed[i], log[i]);
      if log[i].key == key {
        KeyInjective(filed[i].event.tenant, MonthOf(filed[i].clock), tenant, m);
      }
    }
    forall i | 0 <= i < |filed|
      ensures MeteredFor(tenant, m)(filed[i]) == Ledgers.MicroOf(Ledgers.MeteredOn(key))(log[i])
      ensures UnreservedFor(tenant, m)(filed[i]) == Ledgers.MicroOf(Ledgers.UnreservedOn(key))(log[i])
      ensures ExcessFor(tenant, m)(filed[i]) == Ledgers.ValueOf(Ledgers.ReservedOn(key), Ledgers.Excess)(log[i])
    {
      assert Entered(filed[i], log[i]);
    }
    SumSame(filed, MeteredFor(tenant, m), log, Ledgers.MicroOf(Ledgers.MeteredOn(key)));
    SumSame(filed, UnreservedFor(tenant, m), log, Ledgers.MicroOf(Ledgers.UnreservedOn(key)));
    SumSame(filed, ExcessFor(tenant, m), log, Ledgers.ValueOf(Ledgers.ReservedOn(key), Ledgers.Excess));
  }

  function Except(counted: nat -> bool, replica: nat): nat -> bool {
    (r: nat) => r != replica && counted(r)
  }

  ghost predicate OpenMatches(s: Fleet.State, ps: Protocol.State, tenant: int, m: nat, counted: nat -> bool) {
    Sum(s.flights, OpenFor(tenant, m, counted)) == Sum(ps.reqs, OutstandingBy(KeyText(tenant, m), counted))
  }

  lemma BookedOpen(t: Table, codec: Codec, f: Flight, reqs: seq<Protocol.Request>, tenant: int, m: nat,
      counted: nat -> bool)
    requires f.res.active && Booked(t, codec, f, reqs)
    ensures OpenFor(tenant, m, counted)(f) == OutstandingBy(KeyText(tenant, m), counted)(reqs[f.slot])
  {
    hide KeyText, ToMicro, MonthOf, EstimateMicro;
    if f.res.key == KeyText(tenant, m) {
      KeyInjective(f.tenant.id, MonthOf(f.clock), tenant, m);
    }
  }

  lemma OpenBegin(t: Table, codec: Codec, s: Fleet.State, ps: Protocol.State, a: Action, tenant: int, m: nat,
      counted: nat -> bool)
    requires Simulates(t, codec, s, ps) && a.Begin? && OpenMatches(s, ps, tenant, m, counted)
    ensures OpenMatches(Fleet.Step(t, codec, s, a), ImageStep(t, codec, s, ps, a), tenant, m, counted)
  {
    hide Fleet.Step, ImageStep, Booked, KeyText, MonthOf;
    BeginIsReserve(t, codec, s, ps, a);
    var fs, rs := Fleet.Step(t, codec, s, a).flights, ImageStep(t, codec, s, ps, a).reqs;
    if |fs| > |s.flights| {
      assert fs == s.flights + [fs[|s.flights|]];
      SumAppend(s.flights, fs[|s.flights|], OpenFor(tenant, m, counted));
      if fs[|s.flights|].res.active {
        BookedOpen(t, codec, fs[|s.flights|], rs, tenant, m, counted);
      }
    }
    if |rs| > |ps.reqs| {
      assert rs == ps.reqs + [rs[|ps.reqs|]];
      SumAppend(ps.reqs, rs[|ps.reqs|], OutstandingBy(KeyText(tenant, m), counted));
    } else {
      assert rs == ps.reqs;
    }
  }

  lemma OpenEnd(t: Table, codec: Codec, s: Fleet.State, ps: Protocol.State, a: Action, tenant: int, m: nat,
      counted: nat -> bool)
    requires Simulates(t, codec, s, ps) && CanEnd(s, a) && OpenMatches(s, ps, tenant, m, counted)
    ensures OpenMatches(Fleet.Step(t, codec, s, a), ImageStep(t, codec, s, ps, a), tenant, m, counted)
  {
    hide KeyText, MonthOf, ToMicro, EstimateMicro, EventAt, Sends, CommandOf, Makes, Protocol.Step, Protocol.Reconciles;
    var f := s.flights[a.flight];
    SumUpdate(s.flights, a.flight, f.(open := false), OpenFor(tenant, m, counted));
    if f.res.active {
      assert Booked(t, codec, f, ps.reqs);
      BookedOpen(t, codec, f, ps.reqs, tenant, m, counted);
      EndIsSettle(t, codec, s, ps, a);
      var e := Image(t, codec, s, a).value;
      Protocol.SettleEffect(ps, e, "");
      SumUpdate(ps.reqs, f.slot, ImageStep(t, codec, s, ps, a).reqs[f.slot],
                OutstandingBy(KeyText(tenant, m), counted));
    } else {
      NotReserved(t, codec, s, ps, a);
    }
  }

  lemma OpenCrash(t: Table, codec: Codec, s: Fleet.State, ps: Protocol.State, a: Action, tenant: int, m: nat,
      counted: nat -> bool)
    requires a.Crash? && OpenMatches(s, ps, tenant, m, Except(counted, a.replica))
    ensures OpenMatches(Fleet.Step(t, codec, s, a), ImageStep(t, codec, s, ps, a), tenant, m, counted)
  {
    hide KeyText, MonthOf, Fleet.Step, ImageStep;
    CrashStep(t, codec, s, ps, a);
    var rest, key := Except(counted, a.replica), KeyText(tenant, m);
    SumSame(s.flights, OpenFor(tenant, m, rest), Downed(s.flights, a.replica), OpenFor(tenant, m, counted));
    SumSame(ps.reqs, OutstandingBy(key, rest), Protocol.Stranding(ps.reqs, a.replica), OutstandingBy(key, counted));
  }

  /** The estimates of the open requests are the estimates outstanding in the protocol. */
  lemma {:induction false} OpenIsOutstanding(t: Table, codec: Codec, actions: seq<Action>, tenant: int, m: nat,
      counted: nat -> bool)
    ensures OpenMatches(Fleet.Run(t, codec, actions), Protocol.Run(Images(t, codec, actions)), tenant, m, counted)
    decreases |actions|
  {
    if actions == [] {
      hide KeyText;
      Nothing(t, codec);
    } else {
      var before, a := actions[..|actions| - 1], actions[|actions| - 1];
      var s, ps := Fleet.Run(t, codec, before), Protocol.Run(Images(t, codec, before));
      hide OpenMatches, Simulates, Fleet.Step, Image, Protocol.Step, Images;
      OpenIsOutstanding(t, codec, before, tenant, m, if a.Crash? then Except(counted, a.replica) else counted);
      RunIsProtocol(t, codec, before);
      ImagesStep(t, codec, actions);
      if a.Begin? {
        OpenBegin(t, codec, s, ps, a, tenant, m, counted);
      } else if a.Crash? {
        OpenCrash(t, codec, s, ps, a, tenant, m, counted);
      } else if CanEnd(s, a) {
        OpenEnd(t, codec, s, ps, a, tenant, m, counted);
      } else {
        OpenIdle(t, codec, s, ps, a, tenant, m, counted);
      }
    }
  }

  lemma Nothing(t: Table, codec: Codec)
    ensures Fleet.Run(t, codec, []) == Fleet.INIT && Images(t, codec, []) == [] && Protocol.Run([]) == Protocol.INIT
  {
  }

  lemma OpenIdle(t: Table, codec: Codec, s: Fleet.State, ps: Protocol.State, a: Action, tenant: int, m: nat,
      counted: nat -> bool)
    requires OpenMatches(s, ps, tenant, m, counted) && !a.Begin? && !a.Crash? && !CanEnd(s, a)
    ensures OpenMatches(Fleet.Step(t, codec, s, a), ImageStep(t, codec, s, ps, a), tenant, m, counted)
  {
    hide KeyText;
  }

  // --- Counted runs have plain, clocked images ---

  lemma CountedPrefix(t: Table, codec: Codec, actions: seq<Action>, tenant: int, skew: nat)
    requires actions != [] && Counted(t, codec, actions, tenant, skew)
    ensures var before, a := actions[..|actions| - 1], actions[|actions| - 1];
      && Counted(t, codec, before, tenant, skew)
      && CountedEnd(codec, Fleet.Run(t, codec, before), a, tenant)
      && OnTime(Fleet.Run(t, codec, before), a, tenant, skew)
  {
    hide CountedEnd, OnTime, Fleet.Run;
    forall n | 0 <= n < |actions| - 1 ensures actions[..|actions| - 1][..n] == actions[..n] {}
  }

  lemma EstimateNonNegative(t: Table, codec: Codec, p: Provider, body: Bytes)
    requires NonNegative(t)
    ensures 0 <= EstimateMicro(t, codec, p, body)
  {
    hide Cost, ToMicro, OutputCeiling;
    CostNonNegative(t, ProviderName(p), RequestModel(codec, body), |body| / 4, OutputCeiling(codec, body));
  }

  lemma PlainBegin(t: Table, codec: Codec, s: Fleet.State, ps: Protocol.State, a: Action, key: string)
    requires NonNegative(t) && a.Begin? && AllPlain(ps.reqs, key)
    ensures AllPlain(ImageStep(t, codec, s, ps, a).reqs, key)
  {
    hide EstimateMicro, ToMicro, MonthKey, ScriptAllows, AfterReserve, Prepared;
    EstimateNonNegative(t, codec, a.p, BodyOf(codec, a.p, a.original));
  }

  lemma PlainSettle(t: Table, codec: Codec, s: Fleet.State, ps: Protocol.State, a: Action, tenant: int, m: nat)
    requires NonNegative(t) && CanEnd(s, a) && CountedEnd(codec, s, a, tenant) && AllPlain(ps.reqs, KeyText(tenant, m))
    requires s.flights[a.flight].res.active && Booked(t, codec, s.flights[a.flight], ps.reqs)
    ensures AllPlain(ImageStep(t, codec, s, ps, a).reqs, KeyText(tenant, m))
  {
    var f, row, key := s.flights[a.flight], Metered(codec, s, a), KeyText(tenant, m);
    assert EventAt(t, codec, s, a).cost == RowCost(t, f.p, row);
    hide EstimateMicro, ToMicro, MonthOf, KeyText, Metered, RowCost, Image, EventAt, Sends, CommandOf,
      Protocol.Step, Protocol.Reconciles, Protocol.Delta;
    EndIsSettle(t, codec, s, ps, a);
    Protocol.SettleEffect(ps, Image(t, codec, s, a).value, "");
    EstimateNonNegative(t, codec, f.p, f.body);
    if f.res.key == key {
      KeyInjective(f.tenant.id, MonthOf(f.clock), tenant, m);
      RowNonNegative(t, f.p, row);
    }
  }

  lemma PlainEnd(t: Table, codec: Codec, s: Fleet.State, ps: Protocol.State, a: Action, tenant: int, m: nat)
    requires NonNegative(t) && Simulates(t, codec, s, ps) && CanEnd(s, a) && CountedEnd(codec, s, a, tenant)
    requires AllPlain(ps.reqs, KeyText(tenant, m))
    ensures AllPlain(ImageStep(t, codec, s, ps, a).reqs, KeyText(tenant, m))
  {
    hide CountedEnd, Booked, ImageStep, Plain, KeyText;
    if s.flights[a.flight].res.active {
      PlainSettle(t, codec, s, ps, a, tenant, m);
    } else {
      NotReserved(t, codec, s, ps, a);
    }
  }

  lemma RowNonNegative(t: Table, p: Provider, row: Row)
    requires NonNegative(t) && 0 <= row.input && 0 <= row.output
    ensures 0 <= ToMicro(RowCost(t, p, row))
  {
    hide Cost, ToMicro;
    CostNonNegative(t, ProviderName(p), row.model, row.input, row.output);
  }

  lemma PlainIdle(t: Table, codec: Codec, s: Fleet.State, ps: Protocol.State, a: Action, key: string)
    requires AllPlain(ps.reqs, key) && !a.Begin? && !CanEnd(s, a)
    ensures AllPlain(ImageStep(t, codec, s, ps, a).reqs, key)
  {
    hide ToMicro;
  }

  lemma {:induction false} PlainRun(t: Table, codec: Codec, actions: seq<Action>, tenant: int, m: nat, skew: nat)
    requires NonNegative(t) && Counted(t, codec, actions, tenant, skew)
    ensures AllPlain(Protocol.Run(Images(t, codec, actions)).reqs, KeyText(tenant, m))
  {
    hide Simulates, Fleet.Step, Image, Protocol.Step, CountedEnd, OnTime, Counted, Images, Plain, KeyText;
    if actions == [] {
      Nothing(t, codec);
    } else {
      var before, a := actions[..|actions| - 1], actions[|actions| - 1];
      var s, ps := Fleet.Run(t, codec, before), Protocol.Run(Images(t, codec, before));
      CountedPrefix(t, codec, actions, tenant, skew);
      PlainRun(t, codec, before, tenant, m, skew);
      RunIsProtocol(t, codec, before);
      ImagesStep(t, codec, actions);
      if a.Begin? {
        PlainBegin(t, codec, s, ps, a, KeyText(tenant, m));
      } else if CanEnd(s, a) {
        PlainEnd(t, codec, s, ps, a, tenant, m);
      } else {
        PlainIdle(t, codec, s, ps, a, KeyText(tenant, m));
      }
    }
  }

  /** One more event that is on time. */
  lemma ClockedSnoc(es: seq<Protocol.Event>, e: Protocol.Event, tenant: int, skew: nat)
    requires Ledgers.Clocked(es, tenant, skew)
    requires e.Reserve? && e.tenant == tenant ==>
      Protocol.Run(es).store.now - skew <= e.clock <= Protocol.Run(es).store.now + skew
    ensures Ledgers.Clocked(es + [e], tenant, skew)
  {
    hide Protocol.Run;
    var all := es + [e];
    forall m | 0 <= m < |all| ensures all[..m] == es[..m] && (m < |es| ==> all[m] == es[m]) {}
    assert all[..|es|] == es && es[..|es|] == es;
  }

  lemma ReserveIsBegin(t: Table, codec: Codec, s: Fleet.State, a: Action)
    ensures var e := Image(t, codec, s, a);
      e.Some? && e.value.Reserve? ==>
        && a.Begin? && e.value.tenant == a.tenant.id && e.value.clock == a.clock
        && a.tenant.budget.Some? && e.value.limit == ToMicro(a.tenant.budget.value)
  {
    hide Prepared, ToMicro, EstimateMicro;
  }

  lemma ImagesSnoc(t: Table, codec: Codec, actions: seq<Action>)
    requires actions != []
    ensures var before := actions[..|actions| - 1];
      var e := Image(t, codec, Fleet.Run(t, codec, before), actions[|actions| - 1]);
      Images(t, codec, actions) == if e.Some? then Images(t, codec, before) + [e.value] else Images(t, codec, before)
  {
    hide Fleet.Run, Image;
  }

  lemma {:induction false} ClockedRun(t: Table, codec: Codec, actions: seq<Action>, tenant: int, skew: nat)
    requires Counted(t, codec, actions, tenant, skew)
    ensures Ledgers.Clocked(Images(t, codec, actions), tenant, skew)
  {
    if actions != [] {
      var before, a := actions[..|actions| - 1], actions[|actions| - 1];
      var s := Fleet.Run(t, codec, before);
      hide Simulates, Fleet.Run, Protocol.Run, Image, Images, Counted, CountedEnd, Ledgers.Clocked;
      CountedPrefix(t, codec, actions, tenant, skew);
      ClockedRun(t, codec, before, tenant, skew);
      RunIsProtocol(t, codec, before);
      SameStore(t, codec, s, Protocol.Run(Images(t, codec, before)));
      ImagesSnoc(t, codec, actions);
      ReserveIsBegin(t, codec, s, a);
      if Image(t, codec, s, a).Some? {
        ClockedSnoc(Images(t, codec, before), Image(t, codec, s, a).value, tenant, skew);
      }
    } else {
      Nothing(t, codec);
    }
  }

  lemma SameStore(t: Table, codec: Codec, s: Fleet.State, ps: Protocol.State)
    requires Simulates(t, codec, s, ps)
    ensures ps.store == s.store && FilesMatch(s.filed, ps.log)
  {
  }

  /** Every limit the protocol sees of the tenant is one the tenant was given. */
  lemma {:induction false} LimitsRun(t: Table, codec: Codec, actions: seq<Action>, tenant: int, limit: int)
    requires forall n :: 0 <= n < |actions| ==> CappedAt(actions[n], tenant, limit)
    ensures forall m :: 0 <= m < |Images(t, codec, actions)| ==>
      var e := Images(t, codec, actions)[m];
      e.Reserve? && e.tenant == tenant ==> 0 <= e.limit <= limit
  {
    if actions != [] {
      hide Fleet.Run, Image, Images, ToMicro;
      LimitsRun(t, codec, actions[..|actions| - 1], tenant, limit);
      ImagesSnoc(t, codec, actions);
      ReserveIsBegin(t, codec, Fleet.Run(t, codec, actions[..|actions| - 1]), actions[|actions| - 1]);
      assert CappedAt(actions[|actions| - 1], tenant, limit);
    } else {
      Nothing(t, codec);
    }
  }

  lemma LimitWithin(es: seq<Protocol.Event>, tenant: int, m: nat, limit: int)
    requires 0 <= limit
    requires forall i :: 0 <= i < |es| && es[i].Reserve? && es[i].tenant == tenant ==> 0 <= es[i].limit <= limit
    ensures 0 <= LimitOf(es, KeyText(tenant, m)) <= limit
  {
    hide Protocol.Run, KeyText, Overshoot.LastAdmission;
    var j := Overshoot.LastAdmission(es, KeyText(tenant, m));
    if j.Some? {
      AdmissionIsReserve(es, KeyText(tenant, m));
      KeyInjective(es[j.value].tenant, MonthOf(es[j.value].clock), tenant, m);
    }
  }

  /** Whatever the interleaving of requests on any number of replicas, and whatever is lost, fails, crashes or
      expires: if clocks agree to 15 days, what a tenant is metered for in a month, together with the estimates
      of its open requests, exceeds the highest cap it had by no more than what was metered without a
      reservation and what its other requests were metered for beyond their estimates. */
  lemma MeteredCap(t: Table, codec: Codec, actions: seq<Action>, tenant: int, m: nat, limit: int, skew: nat)
    requires NonNegative(t) && Counted(t, codec, actions, tenant, skew) && 2 * skew <= 31 * DAY
    requires 0 <= limit < TWO53 && forall n :: 0 <= n < |actions| ==> CappedAt(actions[n], tenant, limit)
    ensures var s := Fleet.Run(t, codec, actions);
      Sum(s.filed, MeteredFor(tenant, m)) + Sum(s.flights, OpenFor(tenant, m, _ => true))
      <= limit + Sum(s.filed, UnreservedFor(tenant, m)) + Sum(s.filed, ExcessFor(tenant, m))
  {
    hide Fleet.Run, Protocol.Run, KeyText, Counted, AllPlain, Ledgers.Clocked, LimitOf, Images, Simulates,
      ToMicro, MonthOf;
    var es, key := Images(t, codec, actions), KeyText(tenant, m);
    PlainRun(t, codec, actions, tenant, m, skew);
    ClockedRun(t, codec, actions, tenant, skew);
    LimitsRun(t, codec, actions, tenant, limit);
    LimitWithin(es, tenant, m, limit);
    MonthOfTenant(es, tenant, m, skew);
    RunIsProtocol(t, codec, actions);
    SameStore(t, codec, Fleet.Run(t, codec, actions), Protocol.Run(es));
    FiledSums(Fleet.Run(t, codec, actions).filed, Protocol.Run(es).log, tenant, m);
    OpenIsOutstanding(t, codec, actions, tenant, m, _ => true);
    SumSame(Protocol.Run(es).reqs, OutstandingBy(key, _ => true), Protocol.Run(es).reqs, Protocol.OutstandingOn(key));
  }

  // --- Underestimates ---

  /** If a request of the tenant ends, it was underestimated by at most w. */
  predicate NearEnd(t: Table, codec: Codec, s: Fleet.State, a: Action, tenant: int, w: nat) {
    CanEnd(s, a) && s.flights[a.flight].tenant.id == tenant ==>
      var f := s.flights[a.flight];
      ToMicro(RowCost(t, f.p, Metered(codec, s, a))) <= EstimateMicro(t, codec, f.p, f.body) + w
  }

  ghost predicate Near(t: Table, codec: Codec, actions: seq<Action>, tenant: int, w: nat) {
    forall n :: 0 <= n < |actions| ==> NearEnd(t, codec, Fleet.Run(t, codec, actions[..n]), actions[n], tenant, w)
  }

  /** No event of the tenant is for more than what was reserved for it and w. */
  ghost predicate FiledNear(filed: seq<Filed>, tenant: int, w: nat) {
    forall i :: 0 <= i < |filed| && filed[i].event.tenant == tenant && filed[i].reserved.Some? ==>
      ToMicro(filed[i].event.cost) <= filed[i].reserved.value + w
  }

  lemma FiledNearStep(t: Table, codec: Codec, s: Fleet.State, ps: Protocol.State, a: Action, tenant: int, w: nat)
    requires Simulates(t, codec, s, ps) && NearEnd(t, codec, s, a, tenant, w) && FiledNear(s.filed, tenant, w)
    ensures FiledNear(Fleet.Step(t, codec, s, a).filed, tenant, w)
  {
    if CanEnd(s, a) {
      var f := s.flights[a.flight];
      assert EventAt(t, codec, s, a).tenant == f.tenant.id;
      assert EventAt(t, codec, s, a).cost == RowCost(t, f.p, Metered(codec, s, a));
      assert f.res.active ==> Booked(t, codec, f, ps.reqs);
    }
    hide EventAt, Sends, Simulates, Metered, RowCost, EstimateMicro, ToMicro, FlightsAfter, Apply, Makes, MonthKey;
  }

  lemma {:induction false} FiledNearRun(t: Table, codec: Codec, actions: seq<Action>, tenant: int, w: nat)
    requires Near(t, codec, actions, tenant, w)
    ensures FiledNear(Fleet.Run(t, codec, actions).filed, tenant, w)
  {
    if actions != [] {
      var before, a := actions[..|actions| - 1], actions[|actions| - 1];
      var s := Fleet.Run(t, codec, before);
      hide Fleet.Step, NearEnd, Simulates, FiledNear;
      forall n | 0 <= n < |actions| - 1 ensures before[..n] == actions[..n] {}
      FiledNearRun(t, codec, before, tenant, w);
      RunIsProtocol(t, codec, before);
      FiledNearStep(t, codec, s, Protocol.Run(Images(t, codec, before)), a, tenant, w);
    }
  }

  /** The events of the tenant's reserved requests of a month. */
  function CountFor(tenant: int, m: nat): Filed -> int {
    (d: Filed) => if d.event.tenant == tenant && MonthOf(d.clock) == m && d.reserved.Some? then 1 else 0
  }

  /** So the excess is at most w for each of them. */
  lemma {:induction false} ExcessNear(filed: seq<Filed>, tenant: int, m: nat, w: nat)
    requires FiledNear(filed, tenant, w)
    ensures Sum(filed, ExcessFor(tenant, m)) <= w * Sum(filed, CountFor(tenant, m))
  {
    hide ToMicro, MonthOf;
    if filed != [] {
      ExcessNear(filed[..|filed| - 1], tenant, m, w);
    }
  }

  /** A provider that stays within the tokens and prices estimated for underestimates nothing. */
  lemma HonestIsNear(t: Table, codec: Codec, s: Fleet.State, a: Action, tenant: int)
    requires NonNegative(t) && CanEnd(s, a)
    requires WithinEstimate(t, codec, s.flights[a.flight].p, s.flights[a.flight].body, Metered(codec, s, a))
    ensures NearEnd(t, codec, s, a, tenant, 0)
  {
    hide ToMicro, RowCost, EstimateMicro, WithinEstimate, Metered;
    ActualWithinEstimate(t, codec, s.flights[a.flight].p, s.flights[a.flight].body, Metered(codec, s, a));
  }

  // --- Exactly when the cap holds ---

  /** The tenant's requests all find these settings. */
  predicate SetAs(a: Action, tn: Auth.Tenant, enforced: bool) {
    a.Begin? && a.tenant.id == tn.id ==> a.tenant == tn && a.enforced == enforced
  }

  /** Every request of the tenant, and every event, is one with a reservation. */
  ghost predicate AllReserved(s: Fleet.State, tenant: int) {
    && (forall i :: 0 <= i < |s.flights| && s.flights[i].tenant.id == tenant ==> s.flights[i].res.active)
    && (forall i :: 0 <= i < |s.filed| && s.filed[i].event.tenant == tenant ==> s.filed[i].reserved.Some?)
  }

  lemma ReservedStep(t: Table, codec: Codec, s: Fleet.State, a: Action, tn: Auth.Tenant)
    requires AllReserved(s, tn.id) && SetAs(a, tn, true) && tn.budget.Some? && !tn.failOpen
    ensures AllReserved(Fleet.Step(t, codec, s, a), tn.id)
  {
    if a.Begin? {
      UnreservedIff(t, codec, a.enforced, a.p, a.tenant, BodyOf(codec, a.p, a.original), a.clock, s.store, a.link);
    }
    if CanEnd(s, a) {
      assert EventAt(t, codec, s, a).tenant == s.flights[a.flight].tenant.id;
    }
    hide VerdictOf, Prepared, BodyOf, EventAt, Sends, Makes, Apply;
  }

  lemma {:induction false} ReservedRun(t: Table, codec: Codec, actions: seq<Action>, tn: Auth.Tenant)
    requires tn.budget.Some? && !tn.failOpen && forall n :: 0 <= n < |actions| ==> SetAs(actions[n], tn, true)
    ensures AllReserved(Fleet.Run(t, codec, actions), tn.id)
  {
    hide Fleet.Step;
    if actions != [] {
      ReservedRun(t, codec, actions[..|actions| - 1], tn);
      ReservedStep(t, codec, Fleet.Run(t, codec, actions[..|actions| - 1]), actions[|actions| - 1], tn);
    }
  }

  /** A run in which clocks agree, the tenant's settings stand, and none of its requests is underestimated by
      more than w. */
  ghost predicate Fair(t: Table, codec: Codec, actions: seq<Action>, tn: Auth.Tenant, enforced: bool, w: nat,
      skew: nat)
  {
    && NonNegative(t) && Counted(t, codec, actions, tn.id, skew) && Near(t, codec, actions, tn.id, w)
    && forall n :: 0 <= n < |actions| ==> SetAs(actions[n], tn, enforced)
  }

  /** In every month what the tenant is metered for and its open estimates are within its cap. */
  ghost predicate WithinCap(t: Table, codec: Codec, actions: seq<Action>, tn: Auth.Tenant)
    requires tn.budget.Some?
  {
    var s := Fleet.Run(t, codec, actions);
    forall m: nat ::
      Sum(s.filed, MeteredFor(tn.id, m)) + Sum(s.flights, OpenFor(tn.id, m, _ => true)) <= ToMicro(tn.budget.value)
  }

  /** An enforced cap that fails closed is exceeded by at most w for each request. */
  lemma FailClosedCap(t: Table, codec: Codec, actions: seq<Action>, tn: Auth.Tenant, m: nat, w: nat, skew: nat)
    requires tn.budget.Some? && 0 <= ToMicro(tn.budget.value) < TWO53 && 2 * skew <= 31 * DAY
    requires !tn.failOpen && Fair(t, codec, actions, tn, true, w, skew)
    ensures var s := Fleet.Run(t, codec, actions);
      Sum(s.filed, MeteredFor(tn.id, m)) + Sum(s.flights, OpenFor(tn.id, m, _ => true))
      <= ToMicro(tn.budget.value) + w * Sum(s.filed, CountFor(tn.id, m))
  {
    hide Fleet.Run, ToMicro, Counted, Near, MonthOf;
    var s := Fleet.Run(t, codec, actions);
    ReservedRun(t, codec, actions, tn);
    FiledNearRun(t, codec, actions, tn.id, w);
    ExcessNear(s.filed, tn.id, m, w);
    MeteredCap(t, codec, actions, tn.id, m, ToMicro(tn.budget.value), skew);
    SumZero(s.filed, UnreservedFor(tn.id, m));
  }

  lemma OpenNonNegative(t: Table, codec: Codec, actions: seq<Action>, tenant: int, m: nat, skew: nat)
    requires NonNegative(t) && Counted(t, codec, actions, tenant, skew)
    ensures Sum(Fleet.Run(t, codec, actions).flights, OpenFor(tenant, m, _ => true)) >= 0
  {
    hide Fleet.Run, Protocol.Run, Images, KeyText, ToMicro, MonthOf, Counted;
    PlainRun(t, codec, actions, tenant, m, skew);
    OpenIsOutstanding(t, codec, actions, tenant, m, _ => true);
    Protocol.SumNonNegative(Protocol.Run(Images(t, codec, actions)).reqs, OutstandingBy(KeyText(tenant, m), _ => true));
  }

  // --- One request that breaks it ---

  lemma OneRequest(t: Table, codec: Codec, a: Action, b: Action)
    requires a.Begin? && a.p.Anthropic? && b.End? && b.flight == 0 && b.submits
    requires Verdicted(t, codec, Fleet.INIT, a).Proceed?
    ensures Fleet.Run(t, codec, []) == Fleet.INIT
    ensures var res, s := Verdicted(t, codec, Fleet.INIT, a).res, Fleet.Run(t, codec, [a]);
      var f := Flight(a.replica, Anthropic, a.tenant, a.feature, false, a.original, a.clock, res, 0, true);
      && s.flights == [f] && CanEnd(s, b)
      && Fleet.Run(t, codec, [a, b]).filed == [FiledAs(f, EventAt(t, codec, s, b))]
  {
    var v := Verdicted(t, codec, Fleet.INIT, a);
    var f := Flight(a.replica, Anthropic, a.tenant, a.feature, false, a.original, a.clock, v.res, 0, true);
    assert FlightsAfter(t, codec, Fleet.INIT, a) == [] + [f];
    hide Verdicted, Sends, Makes, Apply, EventAt, Prepared;
    assert [a, b][..1] == [a] && [a][..0] == [];
    assert Fleet.Run(t, codec, []) == Fleet.INIT;
    assert Fleet.Run(t, codec, [a]) == Fleet.Step(t, codec, Fleet.INIT, a);
    var s := Fleet.Run(t, codec, [a]);
    assert Fleet.Run(t, codec, [a, b]) == Fleet.Step(t, codec, s, b);
    assert Fleet.Run(t, codec, [a, b]).filed == [] + [FiledAs(f, EventAt(t, codec, s, b))];
  }

  /** The tenant's request, on time, with this end. */
  predicate Costly(t: Table, codec: Codec, a: Action, b: Action, tn: Auth.Tenant, enforced: bool, w: nat)
    requires tn.budget.Some?
  {
    && a.Begin? && a == Begin(0, enforced, Anthropic, tn, "", a.original, 0, a.link)
    && b.End? && b == End(0, b.o, [], Up, true)
    && Verdicted(t, codec, Fleet.INIT, a).Proceed?
    && var row := RowOf(codec, Anthropic, false, a.original, b.o, []);
    && 0 <= row.input && 0 <= row.output
    && ToMicro(tn.budget.value) < ToMicro(RowCost(t, Anthropic, row))
       <= EstimateMicro(t, codec, Anthropic, a.original) + w
  }

  lemma CostlyEnd(t: Table, codec: Codec, a: Action, b: Action, tn: Auth.Tenant, enforced: bool, w: nat, s: Fleet.State)
    requires tn.budget.Some? && Costly(t, codec, a, b, tn, enforced, w)
    requires |s.flights| == 1 && var f := s.flights[0]; f.p.Anthropic? && !f.injected && f.body == a.original
    ensures CountedEnd(codec, s, b, tn.id) && NearEnd(t, codec, s, b, tn.id, w)
  {
    hide RowOf, ToMicro, RowCost, EstimateMicro, Verdicted;
  }

  lemma CostlyFair(t: Table, codec: Codec, a: Action, b: Action, tn: Auth.Tenant, enforced: bool, w: nat, skew: nat)
    requires tn.budget.Some? && NonNegative(t) && Costly(t, codec, a, b, tn, enforced, w)
    ensures Fair(t, codec, [a, b], tn, enforced, w, skew)
  {
    hide Fleet.Run, Verdicted, NonNegative, RowOf, ToMicro, RowCost, EstimateMicro;
    OneRequest(t, codec, a, b);
    CostlyEnd(t, codec, a, b, tn, enforced, w, Fleet.Run(t, codec, [a]));
    assert CountedEnd(codec, Fleet.INIT, a, tn.id) && NearEnd(t, codec, Fleet.INIT, a, tn.id, w);
    assert OnTime(Fleet.INIT, a, tn.id, skew) && OnTime(Fleet.Run(t, codec, [a]), b, tn.id, skew);
    hide CountedEnd, NearEnd, OnTime;
    assert [a, b][..0] == [] && [a, b][..1] == [a];
  }

  lemma CostlyBreaks(t: Table, codec: Codec, a: Action, b: Action, tn: Auth.Tenant, enforced: bool, w: nat, skew: nat)
    requires tn.budget.Some? && NonNegative(t) && Costly(t, codec, a, b, tn, enforced, w)
    ensures Fair(t, codec, [a, b], tn, enforced, w, skew) && !WithinCap(t, codec, [a, b], tn)
  {
    CostlyFair(t, codec, a, b, tn, enforced, w, skew);
    OpenNonNegative(t, codec, [a, b], tn.id, MonthOf(0), skew);
    OneRequest(t, codec, a, b);
    hide Fair, Fleet.Run, RowOf, ToMicro, RowCost, EstimateMicro, Verdicted, MonthOf;
    var filed := Fleet.Run(t, codec, [a, b]).filed;
    assert filed[0].event.cost == RowCost(t, Anthropic, RowOf(codec, Anthropic, false, a.original, b.o, []));
    SumAppend([], filed[0], MeteredFor(tn.id, MonthOf(0)));
    assert [] + [filed[0]] == filed;
  }

  /** Prices of the nameless model, in USD per million tokens. */
  function Priced(input: real, output: real): Table {
    map[Key("anthropic", "") := Price("anthropic", "", input, output)]
  }

  /** Every document is this one; without it nothing parses. */
  function Always(doc: Option<Value>): Codec {
    Codec(_ => doc, _ => [])
  }

  function Long(n: nat): Bytes {
    seq(4 * n, _ => 0)
  }

  /** A request of n tokens, at one USD each. */
  lemma LongRow(n: nat)
    ensures var t, codec := Priced(1000000.0, 0.0), Always(None);
      var row := RowOf(codec, Anthropic, false, Long(n), Buffered(200, []), []);
      && row.input == n && row.output == 0
      && n <= ToMicro(RowCost(t, Anthropic, row)) <= EstimateMicro(t, codec, Anthropic, Long(n))
  {
    assert n as real / 1000000.0 * 1000000.0 == n as real;
    assert 0 as real / 1000000.0 * 0.0 == 0.0;
    assert 1000 as real / 1000000.0 * 0.0 == 0.0;
    assert RowCost(Priced(1000000.0, 0.0), Anthropic, Row("", n, 0, true, 200)) == n as real;
    assert (n as real * 1000000.0 + 0.5).Floor >= n;
  }

  /** One request while the store is down, for more than the cap, and not underestimated. */
  lemma CapBroken(tn: Auth.Tenant, enforced: bool, w: nat, skew: nat)
    returns (t: Table, codec: Codec, actions: seq<Action>)
    requires tn.budget.Some? && 0 <= ToMicro(tn.budget.value) && (!enforced || tn.failOpen)
    ensures Fair(t, codec, actions, tn, enforced, w, skew) && !WithinCap(t, codec, actions, tn)
  {
    var n := ToMicro(tn.budget.value) + 1;
    t, codec := Priced(1000000.0, 0.0), Always(None);
    var a, b := Begin(0, enforced, Anthropic, tn, "", Long(n), 0, Down), End(0, Buffered(200, []), [], Up, true);
    LongRow(n);
    assert Verdicted(t, codec, Fleet.INIT, a) == Proceed(NO_RESERVATION);
    assert NonNegative(t);
    hide RowOf, ToMicro, RowCost, EstimateMicro, Verdicted, Fair, WithinCap, NonNegative;
    CostlyBreaks(t, codec, a, b, tn, enforced, w, skew);
    actions := [a, b];
  }

  /** A reply that reports one input token and 1000 output tokens, and as a request no ceiling. */
  function Told(): Option<Value> {
    Some(Obj(map["usage" := Obj(map["input_tokens" := Int(1), "output_tokens" := Int(1000)])]))
  }

  lemma ToldRow()
    ensures RowOf(Always(Told()), Anthropic, false, [], Buffered(200, []), []) == Row("", 1, 1000, false, 200)
    ensures RequestModel(Always(Told()), []) == "" && OutputCeiling(Always(Told()), []) == 1000
  {
    var usage := map["input_tokens" := Int(1), "output_tokens" := Int(1000)];
    assert IntField(usage, "input_tokens") == Ok(1) && IntField(usage, "output_tokens") == Ok(1000);
    var o := map["usage" := Obj(usage)];
    assert ObjectField(o, "usage") == Ok(Some(usage)) && StringField(o, "model") == Ok("");
  }

  /** At such prices the request is estimated at the cap and costs one micro-USD more. */
  lemma ToldCost(cap: nat)
    ensures var t, codec := Priced(1.0, cap as real / 1000.0), Always(Told());
      && EstimateMicro(t, codec, Anthropic, []) == cap
      && ToMicro(RowCost(t, Anthropic, Row("", 1, 1000, false, 200))) == cap + 1
  {
    ToldRow();
    hide RequestModel, OutputCeiling;
    var p := cap as real / 1000.0;
    assert 0 as real / 1000000.0 * 1.0 + 1000 as real / 1000000.0 * p == cap as real / 1000000.0;
    assert 1 as real / 1000000.0 * 1.0 + 1000 as real / 1000000.0 * p == (cap + 1) as real / 1000000.0;
    MicroOfMillionth(cap);
    MicroOfMillionth(cap + 1);
  }

  lemma MicroOfMillionth(n: nat)
    ensures ToMicro(n as real / 1000000.0) == n
  {
    assert n as real / 1000000.0 * 1000000.0 == n as real;
  }

  /** One request whose estimate just fits, and that costs one micro-USD more. */
  lemma CapOverrun(tn: Auth.Tenant, enforced: bool, w: nat, skew: nat)
    returns (t: Table, codec: Codec, actions: seq<Action>)
    requires tn.budget.Some? && 0 <= ToMicro(tn.budget.value) < TWO53 && w > 0
    ensures Fair(t, codec, actions, tn, enforced, w, skew) && !WithinCap(t, codec, actions, tn)
  {
    var cap := ToMicro(tn.budget.value);
    t, codec := Priced(1.0, cap as real / 1000.0), Always(Told());
    var a, b := Begin(0, enforced, Anthropic, tn, "", [], 0, Up), End(0, Buffered(200, []), [], Up, true);
    ToldRow();
    ToldCost(cap);
    assert NonNegative(t);
    hide RowOf, ToMicro, RowCost, EstimateMicro, Fair, WithinCap, NonNegative, Exceeds, MonthKey;
    AllowedWithinLimit(Fleet.INIT.store, MonthKey(tn.id, 0), cap, cap);
    assert Verdicted(t, codec, Fleet.INIT, a).Proceed?;
    CostlyBreaks(t, codec, a, b, tn, enforced, w, skew);
    actions := [a, b];
  }

  /** The cap holds in all runs, whatever the prices, in which the tenant's requests are underestimated by at
      most w, if and only if it is enforced, the tenant is set to fail closed, and w is zero. */
  lemma CapHoldsIff(tn: Auth.Tenant, enforced: bool, w: nat, skew: nat)
    requires tn.budget.Some? && 0 <= ToMicro(tn.budget.value) < TWO53 && 2 * skew <= 31 * DAY
    ensures (forall t: Table, codec: Codec, actions: seq<Action> ::
               Fair(t, codec, actions, tn, enforced, w, skew) ==> WithinCap(t, codec, actions, tn))
      <==> enforced && !tn.failOpen && w == 0
  {
    hide Fair, ToMicro, Fleet.Run;
    if !enforced || tn.failOpen {
      var t, codec, actions := CapBroken(tn, enforced, w, skew);
    } else if w > 0 {
      var t, codec, actions := CapOverrun(tn, enforced, w, skew);
    } else {
      forall t: Table, codec: Codec, actions: seq<Action> | Fair(t, codec, actions, tn, enforced, w, skew)
        ensures WithinCap(t, codec, actions, tn)
      {
        forall m: nat {
          FailClosedCap(t, codec, actions, tn, m, 0, skew);
        }
      }
    }
  }
}
