/** The two ledgers, the Redis counter and the metering events, against one another; and months apart. */
module Ledgers {
  import opened Sums
  import opened Month
  import opened Prices
  import opened Budget
  import opened Protocol

  /** The metering events of a key's requests that had reserved. */
  function ReservedOn(key: string): Entry -> bool {
    (e: Entry) => e.req.Some? && e.key == key
  }

  /** Those of requests that were forwarded without a reservation. */
  function UnreservedOn(key: string): Entry -> bool {
    (e: Entry) => e.req.None? && e.key == key
  }

  /** All metering events of the key's tenant and month. */
  function MeteredOn(key: string): Entry -> bool {
    (e: Entry) => e.key == key
  }

  /** What of a metered request is summed: its micro-USD, or what it has cost beyond its estimate. */
  datatype Measure = Micro | Excess {
    function Of(est: int, cost: real): int {
      match this
      case Micro => ToMicro(cost)
      case Excess => Max(0, ToMicro(cost) - est)
    }
  }

  /** The value of the events that are chosen. */
  function ValueOf(chosen: Entry -> bool, measure: Measure): Entry -> int {
    (e: Entry) => if chosen(e) then measure.Of(e.est, e.cost) else 0
  }

  function MicroOf(chosen: Entry -> bool): Entry -> int {
    ValueOf(chosen, Micro)
  }

  /** Their CostUSD. */
  function UsdOf(chosen: Entry -> bool): Entry -> real {
    (e: Entry) => if chosen(e) then e.cost else 0.0
  }

  /** Their number. */
  function NumberOf(chosen: Entry -> bool): Entry -> int {
    (e: Entry) => if chosen(e) then 1 else 0
  }

  function EntryOf(req: nat): Entry -> int {
    (e: Entry) => if e.req == Some(req) then 1 else 0
  }

  predicate Submitted(st: Status) {
    (st.Settled? || st.Unsettled?) && st.submitted
  }

  /** The value of the requests of the key whose event was submitted. */
  function SubmittedOn(key: string, measure: Measure): Request -> int {
    (r: Request) => if r.key == key && Submitted(r.status) then measure.Of(r.est, r.status.cost) else 0
  }

  ghost predicate Matched(s: State, key: string, measure: Measure) {
    Sum(s.log, ValueOf(ReservedOn(key), measure)) == Sum(s.reqs, SubmittedOn(key, measure))
  }

  /** The metering event of a settlement. */
  function EntryFor(s: State, e: Event): Entry
    requires CanSettle(s, e)
  {
    Entry(Some(e.req), s.reqs[e.req].key, s.reqs[e.req].est, e.cost)
  }

  lemma LogOfSettle(s: State, e: Event)
    requires CanSettle(s, e)
    ensures Step(s, e).log == if e.submits then s.log + [EntryFor(s, e)] else s.log
  {
    hide ToMicro, Reconciles, AfterReconcile;
  }

  lemma MatchedSettle(s: State, e: Event, key: string, measure: Measure)
    requires Matched(s, key, measure) && CanSettle(s, e)
    ensures Matched(Step(s, e), key, measure)
  {
    hide ToMicro, Reconciles, Step;
    var r' := s.reqs[e.req].(status := SettledStatus(s, e));
    SettleEffect(s, e, key);
    LogOfSettle(s, e);
    SumUpdate(s.reqs, e.req, r', SubmittedOn(key, measure));
    if e.submits {
      SumAppend(s.log, EntryFor(s, e), ValueOf(ReservedOn(key), measure));
    }
  }

  lemma MatchedReserve(s: State, e: Event, key: string, measure: Measure)
    requires Matched(s, key, measure) && e.Reserve?
    ensures Matched(Step(s, e), key, measure)
  {
    hide ToMicro, AfterReserve, ScriptAllows, MonthKey;
    if Admits(s, e) {
      SumAppend(s.reqs, Step(s, e).reqs[|s.reqs|], SubmittedOn(key, measure));
    }
  }

  lemma MatchedCrash(s: State, e: Event, key: string, measure: Measure)
    requires Matched(s, key, measure) && e.Crash?
    ensures Matched(Step(s, e), key, measure)
  {
    hide ToMicro, Measure.Of;
    SumSame(s.reqs, SubmittedOn(key, measure), Step(s, e).reqs, SubmittedOn(key, measure));
  }

  lemma MatchedUnreserved(s: State, e: Event, key: string, measure: Measure)
    requires Matched(s, key, measure) && e.Unreserved?
    ensures Matched(Step(s, e), key, measure)
  {
    hide ToMicro, MonthKey;
    SumAppend(s.log, Entry(None, KeyOf(e), 0, e.cost), ValueOf(ReservedOn(key), measure));
  }

  lemma MatchedStep(s: State, e: Event, key: string, measure: Measure)
    requires Matched(s, key, measure)
    ensures Matched(Step(s, e), key, measure)
  {
    hide ToMicro, Sum, DoReserve, DoSettle, Stranding, Elapse;
    match e
    case Reserve(_, _, _, _, _, _) => MatchedReserve(s, e, key, measure);
    case Settle(_, _, _, _) =>
      if CanSettle(s, e) {
        MatchedSettle(s, e, key, measure);
      } else {
        SettleNothing(s, e);
      }
    case Unreserved(_, _, _) => MatchedUnreserved(s, e, key, measure);
    case Crash(_) => MatchedCrash(s, e, key, measure);
    case Tick(_) =>
  }

  lemma SettleNothing(s: State, e: Event)
    requires e.Settle? && !CanSettle(s, e)
    ensures Step(s, e) == s
  {
  }

  /** In every run the metering events of a key's reserved requests carry the estimates and the costs of these:
      in micro-USD, and in what exceeds the estimates. */
  lemma {:induction false} LogMatches(es: seq<Event>, key: string, measure: Measure)
    ensures Matched(Run(es), key, measure)
  {
    if es != [] {
      hide Step, Matched;
      LogMatches(es[..|es| - 1], key, measure);
      MatchedStep(Run(es[..|es| - 1]), es[|es| - 1], key, measure);
    } else {
      hide ToMicro;
    }
  }

  /** Each request has the number of metering events it should: one once it is over and has submitted. */
  ghost predicate OnceEach(s: State) {
    forall i: nat :: Sum(s.log, EntryOf(i)) == if i < |s.reqs| && Submitted(s.reqs[i].status) then 1 else 0
  }

  lemma OnceEachStep(s: State, e: Event, i: nat)
    requires OnceEach(s)
    ensures var s' := Step(s, e);
      Sum(s'.log, EntryOf(i)) == if i < |s'.reqs| && Submitted(s'.reqs[i].status) then 1 else 0
  {
    hide ToMicro, AfterReserve, Admits, MonthKey, Reconciles, DoSettle, Sum;
    var s' := Step(s, e);
    match e
    case Settle(_, _, _, _) =>
      if CanSettle(s, e) {
        SettleEffect(s, e, "");
        LogOfSettle(s, e);
        if e.submits {
          SumAppend(s.log, s'.log[|s.log|], EntryOf(i));
        }
      } else {
        SettleNothing(s, e);
      }
    case Unreserved(_, _, _) =>
      SumAppend(s.log, s'.log[|s.log|], EntryOf(i));
    case _ =>
  }

  lemma {:induction false} SubmittedOnce(es: seq<Event>)
    ensures OnceEach(Run(es))
  {
    if es != [] {
      SubmittedOnce(es[..|es| - 1]);
      hide Step;
      forall i: nat ensures Sum(Run(es).log, EntryOf(i)) ==
        if i < |Run(es).reqs| && Submitted(Run(es).reqs[i].status) then 1 else 0
      {
        OnceEachStep(Run(es[..|es| - 1]), es[|es| - 1], i);
      }
    }
  }

  /** The key's requests are all over, reconciled and metered. */
  ghost predicate Quiescent(s: State, key: string) {
    forall i :: 0 <= i < |s.reqs| && s.reqs[i].key == key ==> s.reqs[i].status.Settled? && s.reqs[i].status.submitted
  }

  /** Rounding each event to micro-USD moves the sum by at most half a micro-USD per event. */
  lemma {:induction false} RoundingOfLog(log: seq<Entry>, chosen: Entry -> bool)
    ensures var exact := Total(log, UsdOf(chosen)) * 1000000.0;
      var half := Sum(log, NumberOf(chosen)) as real / 2.0;
      exact - half <= Sum(log, MicroOf(chosen)) as real <= exact + half
  {
    if log != [] {
      hide ToMicro;
      RoundingOfLog(log[..|log| - 1], chosen);
      MicroNearest(log[|log| - 1].cost);
    }
  }

  /** The two ledgers agree: at quiescence the counter is the sum of the micro-USD of the metering events of
      the key's reserved requests, and within n/2 micro-USD of the exact cost of these n. */
  lemma LedgersAgree(es: seq<Event>, key: string)
    requires Epoch(Run(es), key) == 0 && Quiescent(Run(es), key)
    ensures var s := Run(es);
      var exact := Total(s.log, UsdOf(ReservedOn(key))) * 1000000.0;
      var half := Sum(s.log, NumberOf(ReservedOn(key))) as real / 2.0;
      && Counter(s.store, key) == Sum(s.log, MicroOf(ReservedOn(key)))
      && exact - half <= Counter(s.store, key) as real <= exact + half
  {
    hide Run, ToMicro;
    var s := Run(es);
    UnexpiredLedger(es, key);
    LogMatches(es, key, Micro);
    SumZero(s.reqs, OutstandingOn(key));
    SumZero(s.reqs, StrandedOn(key));
    SumSame(s.reqs, SettledOn(key), s.reqs, SubmittedOn(key, Micro));
    RoundingOfLog(s.log, ReservedOn(key));
  }

  /** What is metered for a tenant's month is what was reserved for and what was not. */
  lemma MeteredParts(log: seq<Entry>, key: string)
    ensures Sum(log, MicroOf(MeteredOn(key)))
         == Sum(log, MicroOf(ReservedOn(key))) + Sum(log, MicroOf(UnreservedOn(key)))
  {
    hide ToMicro;
    SumPlus(log, MicroOf(ReservedOn(key)), MicroOf(UnreservedOn(key)), MicroOf(MeteredOn(key)));
  }

  // --- Months apart ---

  function CellOf(st: Store, key: string): Option<Cell> {
    if key in st.cells then Some(st.cells[key]) else None
  }

  /** The key an event is about. */
  function TargetOf(s: State, e: Event): Option<string> {
    if e.Reserve? then Some(KeyOf(e))
    else if CanSettle(s, e) then Some(s.reqs[e.req].key)
    else None
  }

  /** No event but the passing of time touches any key but its own; a late settlement touches the key it
      reserved on, in whatever month it arrives. */
  lemma OneKeyOnly(s: State, e: Event, key: string)
    requires !e.Tick? && TargetOf(s, e) != Some(key)
    ensures CellOf(Step(s, e).store, key) == CellOf(s.store, key)
  {
    hide ScriptAllows, MonthKey, ToMicro;
  }

  /** Each replica's clock is within `skew` seconds of Redis's when it reserves for the tenant. */
  ghost predicate Clocked(es: seq<Event>, tenant: int, skew: nat) {
    forall m :: 0 <= m < |es| && es[m].Reserve? && es[m].tenant == tenant ==>
      Run(es[..m]).store.now - skew <= es[m].clock <= Run(es[..m]).store.now + skew
  }

  /** Before this time no counter of month m expires. */
  function Floor(m: nat, skew: nat): int {
    Start(m) - skew + TTL
  }

  ghost predicate Fresh(s: State, key: string, floor: int) {
    && (Epoch(s, key) > 0 ==> floor <= s.store.now)
    && (key in s.store.cells ==>
          var x := s.store.cells[key].expires;
          if x.Some? then floor <= x.value else Epoch(s, key) > 0)
    && (key !in s.store.cells && Epoch(s, key) == 0 ==> forall i :: 0 <= i < |s.reqs| ==> s.reqs[i].key != key)
  }

  lemma FreshReserve(s: State, e: Event, key: string, floor: int)
    requires Fresh(s, key, floor) && e.Reserve?
    requires KeyOf(e) == key ==> floor <= s.store.now + TTL
    ensures Fresh(Step(s, e), key, floor)
  {
    hide ScriptAllows, MonthKey, ToMicro;
  }

  lemma FreshSettle(s: State, e: Event, key: string, floor: int)
    requires Fresh(s, key, floor) && e.Settle?
    ensures Fresh(Step(s, e), key, floor)
  {
    hide ToMicro;
  }

  lemma FreshOther(s: State, e: Event, key: string, floor: int)
    requires Fresh(s, key, floor) && !e.Reserve? && !e.Settle?
    ensures Fresh(Step(s, e), key, floor)
  {
    hide ToMicro;
  }

  lemma ClockedPrefix(es: seq<Event>, tenant: int, skew: nat)
    requires es != [] && Clocked(es, tenant, skew)
    ensures Clocked(es[..|es| - 1], tenant, skew)
    ensures var e, s := es[|es| - 1], Run(es[..|es| - 1]);
      e.Reserve? && e.tenant == tenant ==> s.store.now - skew <= e.clock <= s.store.now + skew
  {
    hide Run;
    forall m | 0 <= m < |es| - 1 ensures es[..|es| - 1][..m] == es[..m] {}
  }

  lemma {:induction false} CountersFresh(es: seq<Event>, tenant: int, m: nat, skew: nat)
    requires Clocked(es, tenant, skew)
    ensures Fresh(Run(es), KeyText(tenant, m), Floor(m, skew))
  {
    var key := KeyText(tenant, m);
    if es != [] {
      var s, e := Run(es[..|es| - 1]), es[|es| - 1];
      hide Step, Fresh, KeyText, Start;
      ClockedPrefix(es, tenant, skew);
      CountersFresh(es[..|es| - 1], tenant, m, skew);
      if e.Reserve? {
        if KeyOf(e) == key {
          KeyInjective(e.tenant, MonthOf(e.clock), tenant, m);
          MonthOfRight(e.clock);
        }
        FreshReserve(s, e, key, Floor(m, skew));
      } else if e.Settle? {
        FreshSettle(s, e, key, Floor(m, skew));
      } else {
        FreshOther(s, e, key, Floor(m, skew));
      }
    }
  }

  /** No counter has expired when its month still receives reserves, with clocks up to 15 days apart. */
  lemma NoExpiryInMonth(es: seq<Event>, j: nat, tenant: int, m: nat, skew: nat)
    requires j < |es| && Clocked(es, tenant, skew) && 2 * skew <= 31 * DAY
    requires es[j].Reserve? && KeyOf(es[j]) == KeyText(tenant, m)
    ensures Epoch(Run(es[..j]), KeyText(tenant, m)) == 0
  {
    hide Run, KeyText, Start;
    forall i | 0 <= i < j ensures es[..j][..i] == es[..i] {}
    CountersFresh(es[..j], tenant, m, skew);
    KeyInjective(es[j].tenant, MonthOf(es[j].clock), tenant, m);
    MonthOfRight(es[j].clock);
  }

  /** A lost answer counts for the rest of its month: whenever the month receives another reserve, the counter
      is at least the lost estimate, so that the reserve is refused unless it fits besides. */
  lemma LostAnswerInMonth(es: seq<Event>, i: nat, j: nat, tenant: int, m: nat, skew: nat)
    requires i < j < |es| && Clocked(es, tenant, skew) && 2 * skew <= 31 * DAY
    requires es[i].Reserve? && es[i].link.AnswerLost? && Admits(Run(es[..i]), es[i])
    requires KeyOf(es[i]) == KeyText(tenant, m)
    requires es[j].Reserve? && KeyOf(es[j]) == KeyText(tenant, m)
    requires forall k :: 0 <= k < |Run(es[..j]).reqs| && Run(es[..j]).reqs[k].key == KeyText(tenant, m) ==>
      var r := Run(es[..j]).reqs[k];
      r.est >= 0 && (r.status.Settled? ==> ToMicro(r.status.cost) >= 0)
    ensures Counter(Run(es[..j]).store, KeyText(tenant, m)) >= es[i].est
    ensures 0 <= es[j].est && 0 <= es[j].limit < TWO53 && Admits(Run(es[..j]), es[j]) ==>
      es[i].est + es[j].est <= es[j].limit
  {
    hide Run, KeyText, MonthKey, ToMicro, Clocked, Exceeds;
    NoExpiryInMonth(es, j, tenant, m, skew);
    assert es[..j] == es[..i] + [es[i]] + es[i + 1..j];
    LostAnswerCounts(es[..i], es[i], es[i + 1..j]);
    if 0 <= es[j].est && 0 <= es[j].limit < TWO53 {
      UnexpiredNonNegative(es[..j], KeyText(tenant, m));
      ScriptExact(Counter(Run(es[..j]).store, KeyText(tenant, m)), es[j].est, es[j].limit);
    }
  }

  // --- The clock bound is exact ---

  /** The month still receives a reserve at j. */
  ghost predicate Receives(es: seq<Event>, j: nat, tenant: int, m: nat, skew: nat) {
    Clocked(es, tenant, skew) && j < |es| && es[j].Reserve? && KeyOf(es[j]) == KeyText(tenant, m)
  }

  /** A month that still receives reserves has never lost its counter, in all runs with clocks off by at most
      `skew`, if and only if that is no more than 15.5 days. */
  lemma NoExpiryIff(skew: nat)
    ensures (forall es: seq<Event>, j: nat, tenant: int, m: nat ::
               Receives(es, j, tenant, m, skew) ==> Epoch(Run(es[..j]), KeyText(tenant, m)) == 0)
      <==> 2 * skew <= 31 * DAY
  {
    hide Run, KeyText, Clocked, Epoch, MonthKey;
    if 2 * skew <= 31 * DAY {
      forall es: seq<Event>, j: nat, tenant: int, m: nat | Receives(es, j, tenant, m, skew)
        ensures Epoch(Run(es[..j]), KeyText(tenant, m)) == 0
      {
        NoExpiryInMonth(es, j, tenant, m, skew);
      }
    } else {
      var es := TooLate(skew);
      assert Receives(es, 3, 1, 2, skew);
    }
  }

  /** March 1970. */
  lemma March(t: nat)
    requires 59 * DAY <= t < 90 * DAY
    ensures MonthKey(1, t) == KeyText(1, 2)
  {
    hide KeyText, MonthOf;
    assert Start(2) == 59 * DAY && Start(3) == 90 * DAY by {
      assert Start(1) == 31 * DAY;
      assert Days(1) == 28 && Days(2) == 31;
    }
    MonthUnique(t, 2);
  }

  /** A counter that lives for 62 days from t. */
  function Alone(key: string, t: nat): Store {
    Store(map[key := Cell(1, Some(t + TTL))], t)
  }

  lemma FirstReserve(s: State, e: Event)
    requires e.Reserve? && e.limit == 1 && e.est == 1 && e.link.Up? && s.store.cells == map[] && s.epochs == map[]
    ensures Step(s, e).store == Alone(KeyOf(e), s.store.now) && Step(s, e).epochs == map[]
  {
    hide MonthKey, Exceeds;
    AllowedWithinLimit(s.store, KeyOf(e), 1, 1);
  }

  lemma Expires(s: State, key: string, t: nat)
    requires s.store == Alone(key, t) && s.epochs == map[]
    ensures Epoch(Step(s, Tick(TTL)), key) == 1 && Step(s, Tick(TTL)).store.now == t + TTL
  {
  }

  /** A reserve by a fast clock at the start of March, and the time the counter lives. */
  lemma LateStates(t0: nat, a: Event, b: Event, c: Event)
    requires a == Tick(t0) && b == Reserve(0, 1, 59 * DAY, 1, 1, Up) && c == Tick(TTL)
    ensures Run([a]).store.now == t0 && Run([a, b, c]).store.now == t0 + TTL
    ensures Epoch(Run([a, b, c]), KeyText(1, 2)) == 1
  {
    March(59 * DAY);
    hide MonthKey, KeyText, ScriptAllows, Epoch, DoSettle, Stranding;
    RunSnoc([], a);
    assert [] + [a] == [a] && [a] + [b] == [a, b] && [a, b] + [c] == [a, b, c];
    assert Run([a]).store == Store(map[], t0) && Run([a]).epochs == map[];
    hide Run, Step, Alone;
    RunSnoc([a], b);
    RunSnoc([a, b], c);
    FirstReserve(Run([a]), b);
    Expires(Run([a, b]), KeyText(1, 2), t0);
  }

  lemma ClockedFour(es: seq<Event>, tenant: int, skew: nat)
    requires |es| == 4 && es[0].Tick? && es[1].Reserve? && es[2].Tick? && es[3].Reserve?
    requires var now := Run(es[..1]).store.now; now - skew <= es[1].clock <= now + skew
    requires var now := Run(es[..3]).store.now; now - skew <= es[3].clock <= now + skew
    ensures Clocked(es, tenant, skew)
  {
    hide Run;
  }

  /** After it the slowest clock reserves at the end of the same month. */
  lemma TooLate(skew: nat) returns (es: seq<Event>)
    requires 2 * skew > 31 * DAY
    ensures Receives(es, 3, 1, 2, skew) && Epoch(Run(es[..3]), KeyText(1, 2)) == 1
  {
    var t0 := if skew <= 59 * DAY then 59 * DAY - skew else 0;
    var a, b, c, d := Tick(t0), Reserve(0, 1, 59 * DAY, 1, 1, Up), Tick(TTL), Reserve(0, 1, 90 * DAY - 1, 1, 1, Up);
    es := [a, b, c, d];
    assert es[..1] == [a] && es[..3] == [a, b, c];
    March(90 * DAY - 1);
    LateStates(t0, a, b, c);
    hide Run, MonthKey, KeyText, Epoch, Clocked;
    ClockedFour(es, 1, skew);
  }
}
