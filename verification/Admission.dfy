/** How many of a number of equal requests are admitted. */
module Admission {
  import opened Sums
  import opened Month
  import opened Prices
  import opened Budget
  import opened Protocol
  import opened Overshoot

  /** The requests that tried to reserve on a key: those whose script was carried out. */
  function TriesOn(key: string): Event -> int {
    (e: Event) => if e.Reserve? && KeyOf(e) == key && !e.link.Down? then 1 else 0
  }

  /** The reservations made on a key. */
  function MadeOn(key: string): Request -> int {
    (r: Request) => if r.key == key then 1 else 0
  }

  /** Every try on the key is for the estimate est under the limit. */
  ghost predicate Uniform(es: seq<Event>, key: string, limit: int, est: int) {
    forall m :: 0 <= m < |es| && es[m].Reserve? && KeyOf(es[m]) == key ==> es[m].limit == limit && es[m].est == est
  }

  /** Every settled request of the key cost exactly est. */
  ghost predicate CostsAsEstimated(rs: seq<Request>, key: string, est: int) {
    forall i :: 0 <= i < |rs| && rs[i].key == key && rs[i].status.Settled? ==> ToMicro(rs[i].status.cost) == est
  }

  ghost predicate EstimatedAt(rs: seq<Request>, key: string, est: int) {
    forall i :: 0 <= i < |rs| && rs[i].key == key ==> rs[i].est == est
  }

  lemma UniformPrefix(es: seq<Event>, key: string, limit: int, est: int)
    requires es != [] && Uniform(es, key, limit, est)
    ensures Uniform(es[..|es| - 1], key, limit, est)
  {
    hide KeyOf;
  }

  lemma EstimatesStep(s: State, e: Event, key: string, est: int)
    requires EstimatedAt(s.reqs, key, est) && (e.Reserve? && KeyOf(e) == key ==> e.est == est)
    ensures EstimatedAt(Step(s, e).reqs, key, est)
  {
    hide ScriptAllows, MonthKey, ToMicro, AfterReserve, AfterReconcile, Reconciles;
  }

  lemma {:induction false} Estimates(es: seq<Event>, key: string, limit: int, est: int)
    requires Uniform(es, key, limit, est)
    ensures EstimatedAt(Run(es).reqs, key, est)
  {
    hide Step, KeyOf;
    if es != [] {
      UniformPrefix(es, key, limit, est);
      Estimates(es[..|es| - 1], key, limit, est);
      EstimatesStep(Run(es[..|es| - 1]), es[|es| - 1], key, est);
    }
  }

  /** What was settled stays settled at the same cost, and lives of keys are not taken back. */
  lemma SettledStays(s: State, e: Event, key: string, est: int)
    requires CostsAsEstimated(Step(s, e).reqs, key, est)
    ensures CostsAsEstimated(s.reqs, key, est)
  {
    hide ScriptAllows, MonthKey, ToMicro, AfterReserve, AfterReconcile, Reconciles;
    var rs, rs' := s.reqs, Step(s, e).reqs;
    forall i | 0 <= i < |rs| && rs[i].key == key && rs[i].status.Settled? ensures ToMicro(rs[i].status.cost) == est {
      assert rs'[i] == rs[i];
    }
  }

  lemma {:induction false} WeightAll(rs: seq<Request>, key: string, est: int)
    requires EstimatedAt(rs, key, est) && CostsAsEstimated(rs, key, est)
    requires forall i :: 0 <= i < |rs| && rs[i].key == key ==>
      rs[i].epoch == 0 && (rs[i].status.Settled? ==> rs[i].status.epoch == 0)
    ensures Sum(rs, WeightOn(key, 0)) == est * Sum(rs, MadeOn(key))
  {
    hide ToMicro;
    SumScale(rs, MadeOn(key), est, WeightOn(key, 0));
  }

  /** The counter is the estimate times the reservations made. */
  lemma CounterIsMultiple(es: seq<Event>, key: string, limit: int, est: int)
    requires Uniform(es, key, limit, est) && CostsAsEstimated(Run(es).reqs, key, est) && Epoch(Run(es), key) == 0
    ensures Counter(Run(es).store, key) == est * Sum(Run(es).reqs, MadeOn(key))
  {
    hide Run, Uniform;
    Conservation(es, key);
    Estimates(es, key, limit, est);
    WeightAll(Run(es).reqs, key, est);
  }

  lemma MadeReserve(s: State, e: Event, key: string)
    requires e.Reserve?
    ensures Sum(Step(s, e).reqs, MadeOn(key)) == Sum(s.reqs, MadeOn(key)) + if AdmitsOn(s, e, key) then 1 else 0
  {
    hide ScriptAllows, MonthKey, AfterReserve;
    if Admits(s, e) {
      SumAppend(s.reqs, Step(s, e).reqs[|s.reqs|], MadeOn(key));
    }
  }

  lemma MadeSettle(s: State, e: Event, key: string)
    requires CanSettle(s, e)
    ensures Sum(Step(s, e).reqs, MadeOn(key)) == Sum(s.reqs, MadeOn(key))
  {
    hide Step, Reconciles, ToMicro;
    SettleEffect(s, e, key);
    SumUpdate(s.reqs, e.req, s.reqs[e.req].(status := SettledStatus(s, e)), MadeOn(key));
  }

  lemma MadeCrash(s: State, e: Event, key: string)
    requires e.Crash?
    ensures Sum(Step(s, e).reqs, MadeOn(key)) == Sum(s.reqs, MadeOn(key))
  {
    var rs, f := Step(s, e).reqs, MadeOn(key);
    SumLe(s.reqs, f, rs, f);
    SumLe(rs, f, s.reqs, f);
  }

  /** A step makes at most one reservation, and exactly one when it admits. */
  lemma MadeStep(s: State, e: Event, key: string)
    ensures Sum(Step(s, e).reqs, MadeOn(key)) == Sum(s.reqs, MadeOn(key)) + if AdmitsOn(s, e, key) then 1 else 0
  {
    hide Sum, ScriptAllows, MonthKey, DoReserve, Stranding, Elapse, AfterReconcile, Reconciles, ToMicro;
    match e
    case Reserve(_, _, _, _, _, _) => MadeReserve(s, e, key);
    case Settle(_, _, _, _) =>
      if CanSettle(s, e) {
        MadeSettle(s, e, key);
      }
    case Unreserved(_, _, _) =>
    case Crash(_) => MadeCrash(s, e, key);
    case Tick(_) =>
  }

  function Min(a: int, b: int): int {
    if a < b then a else b
  }

  lemma Scale(a: int, b: int, c: int)
    requires a <= b && 0 <= c
    ensures c * a <= c * b
  {
  }

  lemma Quotient(limit: int, est: int) returns (q: int, r: int)
    requires 0 < est && 0 <= limit
    ensures limit == est * q + r && 0 <= r < est && q == limit / est
  {
    q, r := limit / est, limit % est;
  }

  /** The arithmetic of one more admission. */
  lemma OneMore(made: nat, est: int, limit: int)
    requires 0 < est && 0 <= limit && made <= limit / est
    ensures est * made + est <= limit <==> made + 1 <= limit / est
  {
    var q, r := Quotient(limit, est);
    if made + 1 <= q {
      Scale(made + 1, q, est);
      assert est * (made + 1) == est * made + est;
    } else {
      assert made == q;
    }
  }

  /** A further try is admitted exactly while the quota limit / est is not used up. */
  lemma AdmitsIff(es: seq<Event>, e: Event, key: string, limit: int, est: int)
    requires 0 < est && 0 <= limit < TWO53
    requires Uniform(es, key, limit, est) && CostsAsEstimated(Run(es).reqs, key, est) && Epoch(Run(es), key) == 0
    requires e.Reserve? && KeyOf(e) == key && e.limit == limit && e.est == est && !e.link.Down?
    requires Sum(Run(es).reqs, MadeOn(key)) <= limit / est
    ensures Admits(Run(es), e) <==> Sum(Run(es).reqs, MadeOn(key)) + 1 <= limit / est
  {
    hide Run, Uniform, CostsAsEstimated, ScriptAllows, MonthKey;
    var made := Sum(Run(es).reqs, MadeOn(key));
    CounterIsMultiple(es, key, limit, est);
    SumNonNegative(Run(es).reqs, MadeOn(key));
    CountersFit(es, key);
    Positive(est, made);
    AllowedWithinLimit(Run(es).store, key, limit, est);
    OneMore(made, est, limit);
  }

  lemma TriesStep(es: seq<Event>, key: string)
    requires es != []
    ensures var e := es[|es| - 1];
      Sum(es, TriesOn(key)) == Sum(es[..|es| - 1], TriesOn(key))
                               + (if e.Reserve? && KeyOf(e) == key && !e.link.Down? then 1 else 0)
  {
  }

  lemma QuotaNonNegative(limit: int, est: int)
    requires 0 < est && 0 <= limit
    ensures limit / est >= 0
  {
  }

  /** Exact admission: under every interleaving of reserves, settlements and crashes on any replicas, of N
      tries for est under the limit exactly min(N, limit / est) are admitted. */
  lemma {:induction false} ExactAdmission(es: seq<Event>, key: string, limit: int, est: int)
    requires 0 < est && 0 <= limit < TWO53
    requires Uniform(es, key, limit, est) && CostsAsEstimated(Run(es).reqs, key, est) && Epoch(Run(es), key) == 0
    ensures Sum(Run(es).reqs, MadeOn(key)) == Min(Sum(es, TriesOn(key)), limit / est)
  {
    hide Run, Step, Uniform, CostsAsEstimated, MonthKey, Sum, KeyOf, Admits;
    if es == [] {
      NothingYet(key);
      QuotaNonNegative(limit, est);
    } else {
      var es', e := es[..|es| - 1], es[|es| - 1];
      RunStep(es);
      UniformPrefix(es, key, limit, est);
      SettledStays(Run(es'), e, key, est);
      Conservation(es', key);
      StepDated(Run(es'), e);
      ExactAdmission(es', key, limit, est);
      MadeStep(Run(es'), e, key);
      TriesStep(es, key);
      if e.Reserve? && KeyOf(e) == key {
        OnLast(es, key, limit, est);
        if e.link.Down? {
          DownAdmitsNot(Run(es'), e);
        } else {
          AdmitsIff(es', e, key, limit, est);
        }
      } else {
        OthersAdmitNot(Run(es'), e, key);
      }
    }
  }

  lemma NothingYet(key: string)
    ensures Run([]) == INIT && Sum(INIT.reqs, MadeOn(key)) == 0 && Sum([], TriesOn(key)) == 0
  {
  }

  lemma DownAdmitsNot(s: State, e: Event)
    requires e.Reserve? && e.link.Down?
    ensures !Admits(s, e)
  {
  }

  lemma OthersAdmitNot(s: State, e: Event, key: string)
    requires !(e.Reserve? && KeyOf(e) == key)
    ensures !AdmitsOn(s, e, key)
  {
  }

  lemma OnLast(es: seq<Event>, key: string, limit: int, est: int)
    requires es != [] && Uniform(es, key, limit, est) && es[|es| - 1].Reserve? && KeyOf(es[|es| - 1]) == key
    ensures es[|es| - 1].limit == limit && es[|es| - 1].est == est
  {
    hide KeyOf;
  }

  lemma Positive(a: int, b: int)
    requires a >= 0 && b >= 0
    ensures a * b >= 0
  {
  }
}
