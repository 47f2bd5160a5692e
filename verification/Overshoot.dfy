/** How far a counter can go above a limit, and when it cannot. */
module Overshoot {
  import opened Sums
  import opened Json
  import opened Month
  import opened Prices
  import opened Budget
  import opened Protocol

  predicate AdmitsOn(s: State, e: Event, key: string) {
    Admits(s, e) && KeyOf(e) == key
  }

  /** The last event of a run that makes a reservation on the key. */
  function LastAdmission(es: seq<Event>, key: string): (j: Option<nat>)
    ensures j.Some? ==> j.value < |es| && AdmitsOn(Run(es[..j.value]), es[j.value], key)
  {
    if es == [] then None
    else if AdmitsOn(Run(es[..|es| - 1]), es[|es| - 1], key) then Some(|es| - 1)
    else
      assert forall j :: 0 <= j < |es| ==> es[..|es| - 1][..j] == es[..j];
      LastAdmission(es[..|es| - 1], key)
  }

  lemma LastAdmissionStep(es: seq<Event>, key: string)
    requires es != []
    ensures LastAdmission(es, key) ==
      if AdmitsOn(Run(es[..|es| - 1]), es[|es| - 1], key) then Some(|es| - 1)
      else LastAdmission(es[..|es| - 1], key)
  {
    hide Run, AdmitsOn;
  }

  /** No event behind the last admission makes a reservation on the key. */
  lemma {:induction false} NoneLater(es: seq<Event>, key: string, m: nat)
    requires m < |es| && AdmitsOn(Run(es[..m]), es[m], key)
    ensures LastAdmission(es, key).Some? && m <= LastAdmission(es, key).value
  {
    hide AdmitsOn, Run;
    if m < |es| - 1 {
      assert es[..|es| - 1][..m] == es[..m];
      NoneLater(es[..|es| - 1], key, m);
    }
  }

  // --- Requests before and after ---

  function Zip(before: seq<Request>, after: seq<Request>): seq<(Request, Request)>
    requires |before| <= |after|
  {
    seq(|before|, i requires 0 <= i < |before| => (before[i], after[i]))
  }

  /** What a request that was outstanding before has cost beyond its estimate. */
  function OverrunOf(p: (Request, Request), key: string): int {
    if p.0.key == key && p.0.status.Outstanding? && p.1.status.Settled?
    then Max(0, ToMicro(p.1.status.cost) - p.0.est) else 0
  }

  function OverrunOn(key: string): ((Request, Request)) -> int {
    (p: (Request, Request)) => OverrunOf(p, key)
  }

  /** The sum of max(0, actual - estimate) over the requests outstanding before and settled since. */
  function Overrun(before: seq<Request>, after: seq<Request>, key: string): int
    requires |before| <= |after|
  {
    Sum(Zip(before, after), OverrunOn(key))
  }

  /** The same reservations later, and no new ones on the key. */
  ghost predicate Follows(before: seq<Request>, after: seq<Request>, key: string) {
    && |before| <= |after|
    && (forall i :: 0 <= i < |before| ==>
          && after[i].key == before[i].key && after[i].est == before[i].est && after[i].limit == before[i].limit
          && (after[i].status.Outstanding? ==> before[i].status.Outstanding?))
    && (forall i :: |before| <= i < |after| ==> after[i].key != key)
  }

  ghost predicate Bounded(before: seq<Request>, s: State, key: string, bound: int) {
    && Follows(before, s.reqs, key)
    && Counter(s.store, key) <= bound + Overrun(before, s.reqs, key)
  }

  lemma OverrunNonNegative(before: seq<Request>, after: seq<Request>, key: string)
    requires |before| <= |after|
    ensures Overrun(before, after, key) >= 0
  {
    SumNonNegative(Zip(before, after), OverrunOn(key));
  }

  lemma BoundedReserve(before: seq<Request>, s: State, e: Event, key: string, bound: int)
    requires e.Reserve? && Bounded(before, s, key, bound) && !AdmitsOn(s, e, key)
    ensures Bounded(before, Step(s, e), key, bound)
  {
    hide ScriptAllows, MonthKey, ToMicro;
    assert Zip(before, Step(s, e).reqs) == Zip(before, s.reqs);
  }

  lemma BoundedSettle(before: seq<Request>, s: State, e: Event, key: string, bound: int)
    requires e.Settle? && Bounded(before, s, key, bound)
    ensures Bounded(before, Step(s, e), key, bound)
  {
    if CanSettle(s, e) {
      hide ToMicro, Step, Reconciles;
      SettleEffect(s, e, key);
      var r' := s.reqs[e.req].(status := SettledStatus(s, e));
      var after := s.reqs[e.req := r'];
      if e.req < |before| {
        var p := (before[e.req], r');
        assert Zip(before, after) == Zip(before, s.reqs)[e.req := p];
        SumUpdate(Zip(before, s.reqs), e.req, p, OverrunOn(key));
      } else {
        assert Zip(before, after) == Zip(before, s.reqs);
      }
    }
  }

  lemma BoundedCrash(before: seq<Request>, s: State, e: Event, key: string, bound: int)
    requires e.Crash? && Bounded(before, s, key, bound)
    ensures Bounded(before, Step(s, e), key, bound)
  {
    hide ToMicro;
    SumLe(Zip(before, s.reqs), OverrunOn(key), Zip(before, Step(s, e).reqs), OverrunOn(key));
  }

  lemma BoundedTick(before: seq<Request>, s: State, e: Event, key: string, bound: int)
    requires e.Tick? && Bounded(before, s, key, bound) && 0 <= bound
    ensures Bounded(before, Step(s, e), key, bound)
  {
    hide ToMicro, Overrun;
    OverrunNonNegative(before, s.reqs, key);
  }

  lemma BoundedStep(before: seq<Request>, s: State, e: Event, key: string, bound: int)
    requires Bounded(before, s, key, bound) && 0 <= bound && !AdmitsOn(s, e, key)
    ensures Bounded(before, Step(s, e), key, bound)
  {
    hide ToMicro, DoReserve, DoSettle, DoTick, Stranding, AdmitsOn, Overrun;
    match e
    case Reserve(_, _, _, _, _, _) => BoundedReserve(before, s, e, key, bound);
    case Settle(_, _, _, _) => BoundedSettle(before, s, e, key, bound);
    case Unreserved(_, _, _) =>
    case Crash(_) => BoundedCrash(before, s, e, key, bound);
    case Tick(_) => BoundedTick(before, s, e, key, bound);
  }

  /** Amounts the script's doubles hold exactly: estimates to 2^53, limits below it, micro-USD. */
  predicate InRange(e: Event)
    requires e.Reserve?
  {
    0 <= e.est <= TWO53 && 0 <= e.limit < TWO53
  }

  lemma {:induction false} CountersFit(es: seq<Event>, key: string)
    ensures InInt64(Counter(Run(es).store, key))
  {
    if es != [] {
      hide Exceeds, MonthKey, ToMicro, Stranding;
      CountersFit(es[..|es| - 1], key);
    }
  }

  lemma AdmittedCounter(s: State, e: Event)
    requires Admits(s, e) && InRange(e) && InInt64(Counter(s.store, KeyOf(e)))
    ensures Counter(Step(s, e).store, KeyOf(e)) <= e.limit
  {
    hide MonthKey, Exceeds;
    AllowedWithinLimit(s.store, KeyOf(e), e.limit, e.est);
  }

  lemma BoundedHere(s: State, key: string, bound: int)
    requires Counter(s.store, key) <= bound
    ensures Bounded(s.reqs, s, key, bound)
  {
    hide Overrun;
    OverrunNonNegative(s.reqs, s.reqs, key);
  }

  lemma AdmissionWithinLimit(es: seq<Event>, key: string)
    requires es != [] && AdmitsOn(Run(es[..|es| - 1]), es[|es| - 1], key) && InRange(es[|es| - 1])
    ensures Bounded(Run(es).reqs, Run(es), key, es[|es| - 1].limit)
  {
    hide Run, Step, ScriptAllows, InRange, MonthKey, Bounded;
    CountersFit(es[..|es| - 1], key);
    AdmittedCounter(Run(es[..|es| - 1]), es[|es| - 1]);
    RunStep(es);
    BoundedHere(Run(es), key, es[|es| - 1].limit);
  }

  lemma RunStep(es: seq<Event>)
    requires es != []
    ensures Run(es) == Step(Run(es[..|es| - 1]), es[|es| - 1])
  {
    hide Step;
  }

  /** In every run: a counter is at most the limit of the last reservation made on its key, plus what the
      requests outstanding right after that reservation have since cost beyond their estimates. A key on
      which no reservation was ever made has no counter. */
  lemma {:induction false} CounterBound(es: seq<Event>, key: string)
    requires var j := LastAdmission(es, key); j.Some? ==> InRange(es[j.value])
    ensures var j := LastAdmission(es, key);
      && (j.Some? ==> Bounded(Run(es[..j.value + 1]).reqs, Run(es), key, es[j.value].limit))
      && (j.None? ==> Bounded([], Run(es), key, 0))
  {
    hide AdmitsOn, Step, Bounded, InRange, Run, LastAdmission;
    var n, j := |es| - 1, LastAdmission(es, key);
    if es != [] {
      LastAdmissionStep(es, key);
      RunStep(es);
    }
    if es == [] {
      BoundedInit(es, key);
    } else if j == Some(n) {
      AdmissionWithinLimit(es, key);
      assert es[..n + 1] == es;
    } else {
      CounterBound(es[..n], key);
      LimitInRange(es, key);
      assert j.Some? ==> es[..n][..j.value + 1] == es[..j.value + 1] && es[..n][j.value] == es[j.value];
      BoundedStep(if j.Some? then Run(es[..j.value + 1]).reqs else [], Run(es[..n]), es[n], key,
                  if j.Some? then es[j.value].limit else 0);
    }
  }

  lemma LimitInRange(es: seq<Event>, key: string)
    requires var j := LastAdmission(es, key); j.Some? ==> InRange(es[j.value])
    ensures var j := LastAdmission(es, key); j.Some? ==> es[j.value].Reserve? && es[j.value].limit >= 0
  {
  }

  lemma BoundedInit(es: seq<Event>, key: string)
    requires es == []
    ensures LastAdmission(es, key).None? && Bounded([], Run(es), key, 0)
  {
  }

  /** The overshoot is at most the number of requests outstanding at the last reservation times the
      worst underestimate; the length of the run does not matter. */
  lemma OvershootBound(es: seq<Event>, key: string, worst: nat)
    requires var j := LastAdmission(es, key);
      j.Some? && InRange(es[j.value])
    requires forall i :: 0 <= i < |Run(es).reqs| ==>
      var r := Run(es).reqs[i];
      r.key == key && r.status.Settled? ==> ToMicro(r.status.cost) <= r.est + worst
    ensures var j := LastAdmission(es, key).value;
      Counter(Run(es).store, key) <= es[j].limit + worst * Sum(Run(es[..j + 1]).reqs, CountOn(key))
  {
    hide Run, ToMicro;
    CounterBound(es, key);
    var before, after := Run(es[..LastAdmission(es, key).value + 1]).reqs, Run(es).reqs;
    OverrunWorst(before, after, key, worst);
  }

  /** Counts the requests outstanding on a key. */
  function CountOn(key: string): Request -> int {
    (r: Request) => if r.key == key && r.status.Outstanding? then 1 else 0
  }

  function ScaledOn(key: string, worst: nat): Request -> int {
    (r: Request) => if r.key == key && r.status.Outstanding? then worst else 0
  }

  lemma OverrunWorst(before: seq<Request>, after: seq<Request>, key: string, worst: nat)
    requires Follows(before, after, key)
    requires forall i :: 0 <= i < |after| && after[i].key == key && after[i].status.Settled? ==>
      ToMicro(after[i].status.cost) <= after[i].est + worst
    ensures Overrun(before, after, key) <= worst * Sum(before, CountOn(key))
  {
    hide ToMicro;
    SumLe(Zip(before, after), OverrunOn(key), before, ScaledOn(key, worst));
    SumScale(before, CountOn(key), worst, ScaledOn(key, worst));
  }

  // --- The hard cap ---

  /** No request of the key was underestimated. */
  ghost predicate NotUnderestimated(rs: seq<Request>, key: string) {
    forall i :: 0 <= i < |rs| && rs[i].key == key && rs[i].status.Settled? ==>
      ToMicro(rs[i].status.cost) <= rs[i].est
  }

  /** If no request is underestimated, the counter never exceeds the limit of the last reservation, and
      with it neither does what is settled and outstanding, as long as the key has not expired. */
  lemma HardCap(es: seq<Event>, key: string)
    requires NotUnderestimated(Run(es).reqs, key)
    requires var j := LastAdmission(es, key); j.Some? && InRange(es[j.value])
    ensures Counter(Run(es).store, key) <= es[LastAdmission(es, key).value].limit
    ensures Epoch(Run(es), key) == 0 && (forall i :: 0 <= i < |Run(es).reqs| ==> Run(es).reqs[i].est >= 0) ==>
      Sum(Run(es).reqs, SettledOn(key)) + Sum(Run(es).reqs, OutstandingOn(key))
      <= es[LastAdmission(es, key).value].limit
  {
    hide Run, ToMicro, InRange;
    OvershootBound(es, key, 0);
    var rs := Run(es).reqs;
    if Epoch(Run(es), key) == 0 && (forall i :: 0 <= i < |rs| ==> rs[i].est >= 0) {
      UnexpiredLedger(es, key);
      SumNonNegative(rs, StrandedOn(key));
    }
  }
}
