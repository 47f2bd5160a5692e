/** Money, end to end: reservations, metering events, prices, clocks and crashes in one statement. */
module EndToEnd {
  import opened Sums
  import opened Json
  import opened Month
  import opened Prices
  import opened Budget
  import opened Protocol
  import opened Overshoot
  import opened Ledgers
  import opened Extract
  import opened Calls

  predicate Over(st: Status) {
    st.Settled? || st.Unsettled?
  }

  /** What a request has cost or may still cost: the actual cost once it is over, else the estimate. */
  function SpendOn(key: string): Request -> int {
    (r: Request) => if r.key != key then 0 else if Over(r.status) then ToMicro(r.status.cost) else r.est
  }

  /** The part of it that was reserved for. */
  function Covered(r: Request, key: string): int {
    if r.key != key then 0
    else if Over(r.status) && ToMicro(r.status.cost) < r.est then ToMicro(r.status.cost) else r.est
  }

  function CoveredOn(key: string): Request -> int {
    (r: Request) => Covered(r, key)
  }

  /** The part beyond the estimate. */
  function ExcessOn(key: string): Request -> int {
    (r: Request) => if r.key == key && Over(r.status) then Max(0, ToMicro(r.status.cost) - r.est) else 0
  }

  /** No request that is over, reconciled or not, was underestimated. */
  ghost predicate AllWithin(rs: seq<Request>, key: string) {
    forall i :: 0 <= i < |rs| && rs[i].key == key && Over(rs[i].status) ==> ToMicro(rs[i].status.cost) <= rs[i].est
  }

  /** While no reservation is made on the key, what is covered does not grow. */
  lemma CoveredStep(s: State, e: Event, key: string)
    requires !AdmitsOn(s, e, key)
    ensures Sum(Step(s, e).reqs, CoveredOn(key)) <= Sum(s.reqs, CoveredOn(key))
  {
    hide ScriptAllows, MonthKey, ToMicro, AfterReserve, AfterReconcile, Reconciles;
    var f, s' := CoveredOn(key), Step(s, e);
    match e
    case Reserve(_, _, _, _, _, _) =>
      if Admits(s, e) {
        SumAppend(s.reqs, s'.reqs[|s.reqs|], f);
      }
    case Settle(_, _, _, _) =>
      if CanSettle(s, e) {
        SettleEffect(s, e, key);
        SumUpdate(s.reqs, e.req, s'.reqs[e.req], f);
      }
    case Unreserved(_, _, _) =>
    case Crash(_) =>
      SumLe(s'.reqs, f, s.reqs, f);
    case Tick(_) =>
  }

  /** In a key's first life what is covered is at most its counter. */
  lemma CoveredAtMostCounter(es: seq<Event>, key: string)
    requires Epoch(Run(es), key) == 0
    ensures Sum(Run(es).reqs, CoveredOn(key)) <= Counter(Run(es).store, key)
  {
    hide Run, ToMicro;
    Conservation(es, key);
    SumLe(Run(es).reqs, CoveredOn(key), Run(es).reqs, WeightOn(key, 0));
  }

  /** What is covered is at most the limit of the last reservation, and stays so for ever. */
  lemma {:induction false} CoveredBound(es: seq<Event>, key: string)
    requires var j := LastAdmission(es, key);
      j.Some? && InRange(es[j.value]) && Epoch(Run(es[..j.value]), key) == 0
    ensures Sum(Run(es).reqs, CoveredOn(key)) <= es[LastAdmission(es, key).value].limit
  {
    var n, j := |es| - 1, LastAdmission(es, key).value;
    hide AdmitsOn, Step, InRange, CoveredOn, Epoch, Run, LastAdmission, Sum;
    assert es != [] by { LastBelow(es, key); }
    LastAdmissionStep(es, key);
    RunStep(es);
    if j == n {
      AdmissionKeepsEpoch(Run(es[..n]), es[n], key);
      CoveredAtMostCounter(es, key);
      AdmissionAtMostLimit(es, key);
    } else {
      assert es[..n][j] == es[j] && es[..n][..j] == es[..j];
      CoveredBound(es[..n], key);
      CoveredStep(Run(es[..n]), es[n], key);
    }
  }

  /** Spend is at most the limit of the last reservation and what requests have cost beyond their estimates,
      and stays so for ever: also after the key has expired, and whatever crashed or failed to reconcile. */
  lemma SpendBound(es: seq<Event>, key: string)
    requires var j := LastAdmission(es, key);
      j.Some? && InRange(es[j.value]) && Epoch(Run(es[..j.value]), key) == 0
    ensures var limit := es[LastAdmission(es, key).value].limit;
      && Sum(Run(es).reqs, SpendOn(key)) <= limit + Sum(Run(es).reqs, ExcessOn(key))
      && (AllWithin(Run(es).reqs, key) ==> Sum(Run(es).reqs, SpendOn(key)) <= limit)
  {
    hide Run, ToMicro, LastAdmission, InRange, Epoch;
    var rs := Run(es).reqs;
    CoveredBound(es, key);
    SumPlus(rs, CoveredOn(key), ExcessOn(key), SpendOn(key));
    if AllWithin(rs, key) {
      SumZero(rs, ExcessOn(key));
    }
  }

  lemma LastBelow(es: seq<Event>, key: string)
    requires LastAdmission(es, key).Some?
    ensures LastAdmission(es, key).value < |es|
  {
    hide Run, AdmitsOn;
  }

  lemma AdmissionKeepsEpoch(s: State, e: Event, key: string)
    requires AdmitsOn(s, e, key)
    ensures Epoch(Step(s, e), key) == Epoch(s, key)
  {
    hide ScriptAllows, MonthKey, AfterReserve;
  }

  lemma AdmissionAtMostLimit(es: seq<Event>, key: string)
    requires es != [] && AdmitsOn(Run(es[..|es| - 1]), es[|es| - 1], key) && InRange(es[|es| - 1])
    ensures Counter(Run(es).store, key) <= es[|es| - 1].limit
  {
    hide Run, Step, InRange;
    AdmissionWithinLimit(es, key);
    var rs := Run(es).reqs;
    SumZeroOverrun(rs, key);
  }

  lemma SumZeroOverrun(rs: seq<Request>, key: string)
    ensures Overrun(rs, rs, key) == 0
  {
    SumZero(Zip(rs, rs), OverrunOn(key));
  }

  lemma AdmissionIsReserve(es: seq<Event>, key: string)
    requires LastAdmission(es, key).Some?
    ensures var j := LastAdmission(es, key).value;
      es[j].Reserve? && KeyOf(es[j]) == key
  {
    hide Run, ScriptAllows, MonthKey;
  }

  /** Estimate and cost are not negative. */
  predicate Plain(r: Request) {
    0 <= r.est && (Over(r.status) ==> 0 <= ToMicro(r.status.cost))
  }

  ghost predicate AllPlain(rs: seq<Request>, key: string) {
    forall i :: 0 <= i < |rs| && rs[i].key == key ==> Plain(rs[i])
  }

  /** What is submitted and what is outstanding is covered but for the excess of what is submitted. */
  lemma {:induction false} Parts(rs: seq<Request>, key: string)
    requires AllPlain(rs, key)
    ensures Sum(rs, SubmittedOn(key, Micro)) + Sum(rs, OutstandingOn(key))
         <= Sum(rs, CoveredOn(key)) + Sum(rs, SubmittedOn(key, Excess))
  {
    hide ToMicro;
    if rs != [] {
      Parts(rs[..|rs| - 1], key);
    }
  }

  // --- A tenant's month ---

  lemma PlainStep(s: State, e: Event, key: string)
    requires AllPlain(Step(s, e).reqs, key)
    ensures AllPlain(s.reqs, key)
  {
    hide ScriptAllows, MonthKey, ToMicro, AfterReserve, AfterReconcile, Reconciles;
    var rs, rs' := s.reqs, Step(s, e).reqs;
    forall i | 0 <= i < |rs| && rs[i].key == key ensures Plain(rs[i]) {
      assert rs'[i].key == key && rs'[i].est == rs[i].est && (Over(rs[i].status) ==> rs'[i] == rs[i]);
      assert Plain(rs'[i]);
    }
  }

  lemma {:induction false} PlainBefore(es: seq<Event>, j: nat, key: string)
    requires j <= |es| && AllPlain(Run(es).reqs, key)
    ensures AllPlain(Run(es[..j]).reqs, key)
  {
    hide Step, AllPlain;
    if j == |es| {
      assert es[..j] == es;
    } else {
      assert es[..|es| - 1][..j] == es[..j];
      PlainStep(Run(es[..|es| - 1]), es[|es| - 1], key);
      PlainBefore(es[..|es| - 1], j, key);
    }
  }

  /** The limit under which the last request of the key was admitted, 0 if none was. */
  function LimitOf(es: seq<Event>, key: string): int {
    var j := LastAdmission(es, key);
    if j.Some? then es[j.value].limit else 0
  }

  /** What is admitted on an unexpired key is in the range of the script's doubles. */
  lemma AdmittedInRange(es: seq<Event>, j: nat, key: string)
    requires j < |es| && AdmitsOn(Run(es[..j]), es[j], key) && Epoch(Run(es[..j]), key) == 0
    requires AllPlain(Run(es).reqs, key) && 0 <= es[j].limit < TWO53 && 0 <= es[j].est
    ensures InRange(es[j])
  {
    hide Run, ToMicro, MonthKey, Exceeds;
    PlainBefore(es, j, key);
    UnexpiredNonNegative(es[..j], key);
    ScriptExact(Counter(Run(es[..j]).store, key), es[j].est, es[j].limit);
  }

  lemma EstimatePlain(es: seq<Event>, j: nat, key: string)
    requires j < |es| && AllPlain(Run(es).reqs, key) && AdmitsOn(Run(es[..j]), es[j], key)
    ensures 0 <= es[j].est
  {
    hide Run, Step, AdmitsOn, Plain;
    assert es[..j + 1] == es[..j] + [es[j]];
    RunSnoc(es[..j], es[j]);
    PlainBefore(es, j + 1, key);
    PlainAdmitted(Run(es[..j]), es[j], key);
  }

  lemma PlainAdmitted(s: State, e: Event, key: string)
    requires AdmitsOn(s, e, key) && AllPlain(Step(s, e).reqs, key)
    ensures 0 <= e.est
  {
    hide ScriptAllows, MonthKey, AfterReserve, ToMicro;
    assert Plain(Step(s, e).reqs[|s.reqs|]);
  }

  lemma NoneReserved(es: seq<Event>, key: string)
    requires LastAdmission(es, key).None?
    ensures Sum(Run(es).reqs, CoveredOn(key)) == 0 && Sum(Run(es).reqs, SpendOn(key)) == 0
  {
    hide Run, ToMicro, LastAdmission;
    CounterBound(es, key);
    SumZero(Run(es).reqs, CoveredOn(key));
    SumZero(Run(es).reqs, SpendOn(key));
  }

  /** The last admission of a tenant's month was in range, and before any expiry. */
  lemma LastInMonth(es: seq<Event>, tenant: int, m: nat, skew: nat)
    requires AllPlain(Run(es).reqs, KeyText(tenant, m)) && Clocked(es, tenant, skew) && 2 * skew <= 31 * DAY
    requires 0 <= LimitOf(es, KeyText(tenant, m)) < TWO53 && LastAdmission(es, KeyText(tenant, m)).Some?
    ensures var j := LastAdmission(es, KeyText(tenant, m)).value;
      es[j].Reserve? && InRange(es[j]) && Epoch(Run(es[..j]), KeyText(tenant, m)) == 0
  {
    hide Run, ToMicro, KeyText, InRange, Clocked, LastAdmission;
    var key := KeyText(tenant, m);
    var j := LastAdmission(es, key).value;
    AdmissionIsReserve(es, key);
    NoExpiryInMonth(es, j, tenant, m, skew);
    EstimatePlain(es, j, key);
    AdmittedInRange(es, j, key);
  }

  /** What the requests of a tenant's month have reserved and used or may still use is within the limit. */
  lemma CoveredMonth(es: seq<Event>, tenant: int, m: nat, skew: nat)
    requires AllPlain(Run(es).reqs, KeyText(tenant, m)) && Clocked(es, tenant, skew) && 2 * skew <= 31 * DAY
    requires 0 <= LimitOf(es, KeyText(tenant, m)) < TWO53
    ensures Sum(Run(es).reqs, CoveredOn(KeyText(tenant, m))) <= LimitOf(es, KeyText(tenant, m))
  {
    hide Run, ToMicro, KeyText, InRange, Clocked, LastAdmission;
    if LastAdmission(es, KeyText(tenant, m)).None? {
      NoneReserved(es, KeyText(tenant, m));
    } else {
      LastInMonth(es, tenant, m, skew);
      CoveredBound(es, KeyText(tenant, m));
    }
  }

  /** In every run of any number of replicas with crashes, lost answers, failed reconciles and expiring keys:
      if clocks agree to 15 days, what is metered for a tenant in a month, the month being that of the budget
      check, together with the estimates still outstanding, exceeds the limit under which the last request was
      admitted by no more than what was metered without a reservation and what was metered beyond the
      reservations; the exact cost by half a micro-USD per event besides. Of other tenants nothing is asked. */
  lemma MonthOfTenant(es: seq<Event>, tenant: int, m: nat, skew: nat)
    requires AllPlain(Run(es).reqs, KeyText(tenant, m)) && Clocked(es, tenant, skew) && 2 * skew <= 31 * DAY
    requires 0 <= LimitOf(es, KeyText(tenant, m)) < TWO53
    ensures var s, key := Run(es), KeyText(tenant, m);
      var excess := Sum(s.log, ValueOf(ReservedOn(key), Excess));
      var bound := LimitOf(es, key) + Sum(s.log, MicroOf(UnreservedOn(key))) + excess;
      && Sum(s.log, MicroOf(MeteredOn(key))) + Sum(s.reqs, OutstandingOn(key)) <= bound
      && Total(s.log, UsdOf(MeteredOn(key))) * 1000000.0
         <= bound as real + Sum(s.log, NumberOf(MeteredOn(key))) as real / 2.0
  {
    hide Run, ToMicro, KeyText, Clocked, LastAdmission, LimitOf;
    var s, key := Run(es), KeyText(tenant, m);
    CoveredMonth(es, tenant, m, skew);
    LogMatches(es, key, Micro);
    LogMatches(es, key, Excess);
    Parts(s.reqs, key);
    MeteredParts(s.log, key);
    RoundingOfLog(s.log, MeteredOn(key));
    SumNonNegative(s.reqs, OutstandingOn(key));
  }

  // --- What can still be exceeded after the last admission ---

  /** What a request that was not yet reconciled before has cost beyond its estimate since, or for good. */
  function LateOf(p: (Request, Request), key: string): int {
    if p.0.key == key && !p.0.status.Settled? && Over(p.1.status) then Max(0, ToMicro(p.1.status.cost) - p.0.est) else 0
  }

  function LateOn(key: string): ((Request, Request)) -> int {
    (p: (Request, Request)) => LateOf(p, key)
  }

  /** The rest of its spend: what a reconciled request has cost, and what is covered of any other. */
  function FirmOf(p: (Request, Request), key: string): int {
    if p.0.key == key && p.0.status.Settled? then ToMicro(p.0.status.cost) else Covered(p.1, key)
  }

  function FirmOn(key: string): ((Request, Request)) -> int {
    (p: (Request, Request)) => FirmOf(p, key)
  }

  /** The same reservations later, those that were over unchanged, and no new ones on the key. */
  ghost predicate Persists(before: seq<Request>, after: seq<Request>, key: string) {
    && |before| <= |after|
    && (forall i :: 0 <= i < |before| ==>
          && after[i].key == before[i].key && after[i].est == before[i].est
          && (Over(before[i].status) ==> after[i] == before[i]))
    && (forall i :: |before| <= i < |after| ==> after[i].key != key)
  }

  ghost predicate FirmWithin(before: seq<Request>, after: seq<Request>, key: string, limit: int) {
    Persists(before, after, key) && Sum(Zip(before, after), FirmOn(key)) <= limit
  }

  /** What one event does to one request. */
  lemma OneRequest(s: State, e: Event, i: nat, key: string)
    requires i < |s.reqs|
    ensures var r, r' := s.reqs[i], Step(s, e).reqs[i];
      && i < |Step(s, e).reqs| && r'.key == r.key && r'.est == r.est
      && (Over(r.status) ==> r' == r) && Covered(r', key) <= Covered(r, key)
  {
    hide ScriptAllows, MonthKey, ToMicro, AfterReserve, AfterReconcile, Reconciles;
  }

  lemma NoNewOnKey(s: State, e: Event, key: string)
    requires !AdmitsOn(s, e, key)
    ensures forall i :: |s.reqs| <= i < |Step(s, e).reqs| ==> Step(s, e).reqs[i].key != key
  {
    hide ScriptAllows, MonthKey, ToMicro, AfterReserve, AfterReconcile, Reconciles;
  }

  lemma FirmStep(before: seq<Request>, s: State, e: Event, key: string, limit: int)
    requires FirmWithin(before, s.reqs, key, limit) && !AdmitsOn(s, e, key)
    ensures FirmWithin(before, Step(s, e).reqs, key, limit)
  {
    hide Step, Covered, ToMicro, AdmitsOn, Sum;
    var after := Step(s, e).reqs;
    NoNewOnKey(s, e, key);
    RequestsStay(s, e);
    forall i | 0 <= i < |s.reqs|
      ensures after[i].key == s.reqs[i].key && after[i].est == s.reqs[i].est
      ensures Over(s.reqs[i].status) ==> after[i] == s.reqs[i]
      ensures Covered(after[i], key) <= Covered(s.reqs[i], key)
    {
      OneRequest(s, e, i, key);
    }
    SumLe(Zip(before, after), FirmOn(key), Zip(before, s.reqs), FirmOn(key));
  }

  lemma RequestsStay(s: State, e: Event)
    ensures |s.reqs| <= |Step(s, e).reqs|
  {
    hide Admits, AfterReserve, AfterReconcile, Reconciles;
  }

  lemma FirmAtAdmission(es: seq<Event>, key: string)
    requires es != [] && AdmitsOn(Run(es[..|es| - 1]), es[|es| - 1], key) && InRange(es[|es| - 1])
    requires Epoch(Run(es[..|es| - 1]), key) == 0
    ensures FirmWithin(Run(es).reqs, Run(es).reqs, key, es[|es| - 1].limit)
  {
    hide Run, Step, AdmitsOn, InRange, Epoch, FirmOf;
    RunStep(es);
    AdmissionKeepsEpoch(Run(es[..|es| - 1]), es[|es| - 1], key);
    AdmissionAtMostLimit(es, key);
    FirmAtMostCounter(es, key);
  }

  lemma FirmAtMostCounter(es: seq<Event>, key: string)
    requires Epoch(Run(es), key) == 0
    ensures var rs := Run(es).reqs;
      Sum(Zip(rs, rs), FirmOn(key)) <= Counter(Run(es).store, key)
  {
    hide Run, ToMicro;
    Conservation(es, key);
    SumLe(Zip(Run(es).reqs, Run(es).reqs), FirmOn(key), Run(es).reqs, WeightOn(key, 0));
  }

  /** The reservations as they were right after the last admission. */
  function AtLast(es: seq<Event>, key: string): seq<Request> {
    var j := LastAdmission(es, key);
    if j.Some? then Run(es[..j.value + 1]).reqs else []
  }

  lemma AtLastHere(es: seq<Event>, key: string)
    requires es != [] && LastAdmission(es, key) == Some(|es| - 1)
    ensures AtLast(es, key) == Run(es).reqs
  {
    hide Run, LastAdmission;
    assert es[..|es|] == es;
  }

  lemma AtLastBefore(es: seq<Event>, key: string)
    requires es != [] && LastAdmission(es, key).Some? && LastAdmission(es, key).value < |es| - 1
    ensures AtLast(es[..|es| - 1], key) == AtLast(es, key)
  {
    var j := LastAdmission(es, key).value;
    LastBefore(es, key);
    hide Run, LastAdmission;
    assert es[..|es| - 1][..j + 1] == es[..j + 1];
  }

  lemma LastBefore(es: seq<Event>, key: string)
    requires es != [] && LastAdmission(es, key).Some? && LastAdmission(es, key).value < |es| - 1
    ensures LastAdmission(es[..|es| - 1], key) == LastAdmission(es, key)
  {
    hide Run, AdmitsOn;
  }

  lemma {:induction false} FirmBound(es: seq<Event>, key: string)
    requires var j := LastAdmission(es, key);
      j.Some? && InRange(es[j.value]) && Epoch(Run(es[..j.value]), key) == 0
    ensures FirmWithin(AtLast(es, key), Run(es).reqs, key, es[LastAdmission(es, key).value].limit)
  {
    var n, j := |es| - 1, LastAdmission(es, key).value;
    hide AdmitsOn, Step, InRange, FirmWithin, Epoch, Run, LastAdmission, AtLast;
    LastBelow(es, key);
    LastAdmissionStep(es, key);
    RunStep(es);
    if j == n {
      AtLastHere(es, key);
      FirmAtAdmission(es, key);
    } else {
      AtLastBefore(es, key);
      assert es[..n][j] == es[j] && es[..n][..j] == es[..j];
      FirmBound(es[..n], key);
      FirmStep(AtLast(es, key), Run(es[..n]), es[n], key, es[j].limit);
    }
  }

  /** The spend of a key in the two parts. */
  lemma {:induction false} SpendParts(before: seq<Request>, after: seq<Request>, key: string)
    requires Persists(before, after, key)
    ensures Sum(after, SpendOn(key)) == Sum(Zip(before, after), FirmOn(key)) + Sum(Zip(before, after), LateOn(key))
    decreases |after|
  {
    hide ToMicro;
    if |after| > |before| {
      assert Zip(before, after[..|after| - 1]) == Zip(before, after);
      SpendParts(before, after[..|after| - 1], key);
    } else if after != [] {
      var n := |after| - 1;
      assert Zip(before, after)[..n] == Zip(before[..n], after[..n]);
      SpendParts(before[..n], after[..n], key);
      assert Zip(before, after)[n] == (before[n], after[n]);
    }
  }

  /** Counts the requests of a key that are not reconciled. */
  function OpenOn(key: string): Request -> int {
    (r: Request) => if r.key == key && !r.status.Settled? then 1 else 0
  }

  /** Spend exceeds the limit of the last reservation only by requests that were not reconciled when it was
      made: what was underestimated and reconciled before had already counted against that reservation. So
      the excess is at most the worst underestimate for each of them, however long the run. */
  lemma InFlightBound(es: seq<Event>, key: string, worst: nat)
    requires var j := LastAdmission(es, key);
      j.Some? && InRange(es[j.value]) && Epoch(Run(es[..j.value]), key) == 0
    ensures |AtLast(es, key)| <= |Run(es).reqs|
    ensures var limit := es[LastAdmission(es, key).value].limit;
      var late := Sum(Zip(AtLast(es, key), Run(es).reqs), LateOn(key));
      && Sum(Run(es).reqs, SpendOn(key)) <= limit + late
      && late <= Sum(Run(es).reqs, ExcessOn(key))
      && ((forall i :: 0 <= i < |Run(es).reqs| && Run(es).reqs[i].key == key && Over(Run(es).reqs[i].status) ==>
             ToMicro(Run(es).reqs[i].status.cost) <= Run(es).reqs[i].est + worst) ==>
            late <= worst * Sum(AtLast(es, key), OpenOn(key)))
  {
    hide Run, ToMicro, LastAdmission, InRange, Epoch, AtLast;
    var before, after := AtLast(es, key), Run(es).reqs;
    FirmBound(es, key);
    SpendParts(before, after, key);
    LateAtMostExcess(before, after, key);
    if forall i :: 0 <= i < |after| && after[i].key == key && Over(after[i].status) ==>
      ToMicro(after[i].status.cost) <= after[i].est + worst
    {
      LateWorst(before, after, key, worst);
    }
  }

  lemma {:induction false} SpendSubmitted(rs: seq<Request>, key: string)
    requires AllPlain(rs, key)
    ensures Sum(rs, SubmittedOn(key, Micro)) + Sum(rs, OutstandingOn(key)) <= Sum(rs, SpendOn(key))
  {
    hide ToMicro;
    if rs != [] {
      SpendSubmitted(rs[..|rs| - 1], key);
    }
  }

  /** The same of a tenant's month: if no request of it was underestimated by more than `worst`, what is metered
      and outstanding exceeds the limit by no more than what was metered without a reservation and `worst` for
      each request that was not reconciled when the last one was admitted. */
  lemma MonthInFlight(es: seq<Event>, tenant: int, m: nat, skew: nat, worst: nat)
    requires AllPlain(Run(es).reqs, KeyText(tenant, m)) && Clocked(es, tenant, skew) && 2 * skew <= 31 * DAY
    requires 0 <= LimitOf(es, KeyText(tenant, m)) < TWO53
    requires forall i :: 0 <= i < |Run(es).reqs| ==>
      var r := Run(es).reqs[i];
      r.key == KeyText(tenant, m) && Over(r.status) ==> ToMicro(r.status.cost) <= r.est + worst
    ensures var s, key := Run(es), KeyText(tenant, m);
      Sum(s.log, MicroOf(MeteredOn(key))) + Sum(s.reqs, OutstandingOn(key))
      <= LimitOf(es, key) + Sum(s.log, MicroOf(UnreservedOn(key))) + worst * Sum(AtLast(es, key), OpenOn(key))
  {
    hide Run, ToMicro, KeyText, InRange, Clocked, LastAdmission;
    var s, key := Run(es), KeyText(tenant, m);
    if LastAdmission(es, key).None? {
      NoneReserved(es, key);
    } else {
      LastInMonth(es, tenant, m, skew);
      InFlightBound(es, key, worst);
    }
    hide LimitOf, AtLast;
    SpendSubmitted(s.reqs, key);
    LogMatches(es, key, Micro);
    MeteredParts(s.log, key);
  }

  lemma {:induction false} LateAtMostExcess(before: seq<Request>, after: seq<Request>, key: string)
    requires Persists(before, after, key)
    ensures Sum(Zip(before, after), LateOn(key)) <= Sum(after, ExcessOn(key))
    decreases |after|
  {
    hide ToMicro;
    if |after| > |before| {
      assert Zip(before, after[..|after| - 1]) == Zip(before, after);
      LateAtMostExcess(before, after[..|after| - 1], key);
    } else {
      SumLe(Zip(before, after), LateOn(key), after, ExcessOn(key));
    }
  }

  function WorstOn(key: string, worst: nat): Request -> int {
    (r: Request) => if r.key == key && !r.status.Settled? then worst else 0
  }

  lemma LateWorst(before: seq<Request>, after: seq<Request>, key: string, worst: nat)
    requires Persists(before, after, key)
    requires forall i :: 0 <= i < |after| && after[i].key == key && Over(after[i].status) ==>
      ToMicro(after[i].status.cost) <= after[i].est + worst
    ensures Sum(Zip(before, after), LateOn(key)) <= worst * Sum(before, OpenOn(key))
  {
    hide ToMicro;
    SumLe(Zip(before, after), LateOn(key), before, WorstOn(key, worst));
    SumScale(before, OpenOn(key), worst, WorstOn(key, worst));
  }

  // --- Requests as the gateway makes them ---

  /** The request behind a reservation: its provider, its (rewritten) body, how it was metered. */
  datatype Call = Call(p: Provider, body: Bytes, row: Row)

  /** The reservation is the estimate of the call's body; once over, its cost is that of the call's row, and
      the provider stayed within what the body allowed and the estimate priced. */
  ghost predicate Honest(t: Table, codec: Codec, c: Call, r: Request) {
    && r.est == EstimateMicro(t, codec, c.p, c.body)
    && (Over(r.status) ==>
          && r.status.cost == RowCost(t, c.p, c.row)
          && WithinEstimate(t, codec, c.p, c.body, c.row)
          && 0 <= c.row.input && 0 <= c.row.output)
  }

  /** The requests of the key are honest. */
  ghost predicate AllHonest(t: Table, codec: Codec, cs: seq<Call>, rs: seq<Request>, key: string) {
    |cs| == |rs| && forall i :: 0 <= i < |rs| && rs[i].key == key ==> Honest(t, codec, cs[i], rs[i])
  }

  lemma CostNonNegative(t: Table, provider: string, model: string, input: int, output: int)
    requires NonNegative(t) && 0 <= input && 0 <= output
    ensures 0.0 <= Cost(t, provider, model, input, output).0 && 0 <= ToMicro(Cost(t, provider, model, input, output).0)
  {
    var k := Key(provider, model);
    if k in t {
      ProductLe(0.0, 0.0, input as real / 1000000.0, t[k].input);
      ProductLe(0.0, 0.0, output as real / 1000000.0, t[k].output);
    }
    MicroMonotone(0.0, Cost(t, provider, model, input, output).0);
  }

  lemma HonestCall(t: Table, codec: Codec, c: Call, r: Request)
    requires NonNegative(t) && Honest(t, codec, c, r)
    ensures 0 <= r.est && (Over(r.status) ==> 0 <= ToMicro(r.status.cost) <= r.est)
  {
    hide Cost, ToMicro, WithinEstimate, OutputCeiling, RequestModel;
    CostNonNegative(t, ProviderName(c.p), RequestModel(codec, c.body), |c.body| / 4, OutputCeiling(codec, c.body));
    if Over(r.status) {
      ActualWithinEstimate(t, codec, c.p, c.body, c.row);
      CostNonNegative(t, ProviderName(c.p), c.row.model, c.row.input, c.row.output);
    }
  }

  /** If the tenant's requests of the month are honest there is nothing beyond the reservations: what is
      metered and outstanding exceeds the limit by no more than what was metered without one. */
  lemma MonthlyCap(t: Table, codec: Codec, cs: seq<Call>, es: seq<Event>, tenant: int, m: nat, skew: nat)
    requires NonNegative(t) && AllHonest(t, codec, cs, Run(es).reqs, KeyText(tenant, m))
    requires Clocked(es, tenant, skew) && 2 * skew <= 31 * DAY
    requires 0 <= LimitOf(es, KeyText(tenant, m)) < TWO53
    ensures var s, key, limit := Run(es), KeyText(tenant, m), LimitOf(es, KeyText(tenant, m));
      var unreserved := Sum(s.log, MicroOf(UnreservedOn(key)));
      && Sum(s.log, MicroOf(MeteredOn(key))) + Sum(s.reqs, OutstandingOn(key)) <= limit + unreserved
      && Total(s.log, UsdOf(MeteredOn(key))) * 1000000.0
         <= (limit + unreserved) as real + Sum(s.log, NumberOf(MeteredOn(key))) as real / 2.0
  {
    hide Run, ToMicro, KeyText, Honest, Clocked, LimitOf;
    var s, key := Run(es), KeyText(tenant, m);
    forall i | 0 <= i < |s.reqs| && s.reqs[i].key == key
      ensures Plain(s.reqs[i]) && (Over(s.reqs[i].status) ==> ToMicro(s.reqs[i].status.cost) <= s.reqs[i].est)
    {
      HonestCall(t, codec, cs[i], s.reqs[i]);
    }
    MonthOfTenant(es, tenant, m, skew);
    LogMatches(es, key, Excess);
    SumZero(s.reqs, SubmittedOn(key, Excess));
  }
}
