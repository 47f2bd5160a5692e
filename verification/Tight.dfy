/** The overshoot bound is attained: no smaller one holds of all runs. */
module Tight {
  import opened Sums
  import opened Month
  import opened Prices
  import opened Budget
  import opened Protocol
  import opened Overshoot

  /** n requests reserve est each, under one limit, in January 1970 (any month would do). */
  function Reserves(n: nat, limit: int, est: int): seq<Event> {
    seq(n, _ => Reserve(0, 1, 0, limit, est, Up))
  }

  /** The first n of them settle at one cost. */
  function Settles(n: nat, cost: real): seq<Event> {
    seq(n, (i: nat) => Settle(i, cost, Up, true))
  }

  function TheKey(): string {
    MonthKey(1, 0)
  }

  /** The i-th of these requests when the first `settled` of them have settled. */
  function Made(limit: int, est: int, cost: real, settled: nat, i: nat): Request {
    Request(0, TheKey(), limit, est, 0, if i < settled then Settled(cost, 0, true) else Outstanding)
  }

  ghost predicate Stands(s: State, n: nat, limit: int, est: int, cost: real, settled: nat) {
    && |s.reqs| == n
    && (forall i :: 0 <= i < n ==> s.reqs[i] == Made(limit, est, cost, settled, i))
    && s.epochs == map[]
    && Counter(s.store, TheKey()) == n * est + settled * (ToMicro(cost) - est)
  }

  lemma StepReserve(s: State, n: nat, limit: int, est: int, cost: real)
    requires 0 < est <= TWO53 && 0 <= limit < TWO53 && n * est + est <= limit
    requires Stands(s, n, limit, est, cost, 0)
    ensures var e := Reserve(0, 1, 0, limit, est, Up);
      Stands(Step(s, e), n + 1, limit, est, cost, 0) && AdmitsOn(s, e, TheKey())
  {
    hide MonthKey, ToMicro, Exceeds;
    assert 0 * (ToMicro(cost) - est) == 0;
    assert n * est >= 0;
    AllowedWithinLimit(s.store, TheKey(), limit, est);
    assert (n + 1) * est == n * est + est;
  }

  lemma {:induction false} AfterReserves(n: nat, limit: int, est: int, cost: real)
    requires 0 < est <= TWO53 && 0 <= limit < TWO53 && n * est <= limit
    ensures Stands(Run(Reserves(n, limit, est)), n, limit, est, cost, 0)
  {
    hide MonthKey, ToMicro;
    var es := Reserves(n, limit, est);
    if n == 0 {
      assert es == [];
    } else {
      assert n * est == (n - 1) * est + est;
      assert es[..n - 1] == Reserves(n - 1, limit, est);
      AfterReserves(n - 1, limit, est, cost);
      StepReserve(Run(es[..n - 1]), n - 1, limit, est, cost);
    }
  }

  lemma StepSettle(s: State, n: nat, limit: int, est: int, cost: real, k: nat)
    requires k < n && est <= ToMicro(cost)
    requires Stands(s, n, limit, est, cost, k)
    requires 0 <= Counter(s.store, TheKey()) + (ToMicro(cost) - est) <= TWO53
    ensures Stands(Step(s, Settle(k, cost, Up, true)), n, limit, est, cost, k + 1)
    ensures !AdmitsOn(s, Settle(k, cost, Up, true), TheKey())
  {
    var e := Settle(k, cost, Up, true);
    hide MonthKey, ToMicro, TheKey, Step, Made, Applies;
    MadeOpen(s, n, limit, est, cost, k);
    SettleEffect(s, e, TheKey());
    SettleReconciles(s, e, est, cost);
    OneMoreTimes(k, ToMicro(cost) - est);
    forall i | 0 <= i < n ensures Step(s, e).reqs[i] == Made(limit, est, cost, k + 1, i) {
      MadeNext(limit, est, cost, k, i);
    }
  }

  lemma OneMoreTimes(k: nat, d: int)
    ensures (k + 1) * d == k * d + d
  {
  }

  lemma MadeOpen(s: State, n: nat, limit: int, est: int, cost: real, k: nat)
    requires k < n && Stands(s, n, limit, est, cost, k)
    ensures s.reqs[k] == Request(0, TheKey(), limit, est, 0, Outstanding) && Epoch(s, TheKey()) == 0
  {
    hide TheKey, ToMicro;
  }

  lemma MadeNext(limit: int, est: int, cost: real, k: nat, i: nat)
    ensures Made(limit, est, cost, k + 1, i)
         == if i == k then Made(limit, est, cost, k, i).(status := Settled(cost, 0, true))
            else Made(limit, est, cost, k, i)
  {
    hide TheKey;
  }

  lemma SettleReconciles(s: State, e: Event, est: int, cost: real)
    requires CanSettle(s, e) && e.cost == cost && e.link.Up? && s.reqs[e.req].est == est
    requires 0 <= Counter(s.store, s.reqs[e.req].key) + (ToMicro(cost) - est) <= TWO53
    ensures Reconciles(s, e)
  {
    hide ToMicro;
  }

  lemma Fits(n: nat, est: nat, w: nat, k: nat, top: int)
    requires 0 < k <= n && n * est + n * w <= top
    ensures 0 <= n * est + (k - 1) * w + w <= top
  {
    LessTimes(k, n, w);
    assert k * w == (k - 1) * w + w;
  }

  lemma LessTimes(k: nat, n: nat, w: nat)
    requires k <= n
    ensures k * w <= n * w
  {
  }

  lemma LastReserve(n: nat, limit: int, est: int, cost: real)
    requires 0 < est <= TWO53 && 0 <= limit < TWO53 && 0 < n && n * est <= limit
    ensures var es := Reserves(n, limit, est);
      Stands(Run(es), n, limit, est, cost, 0) && LastAdmission(es, TheKey()) == Some(n - 1)
  {
    hide Step, TheKey, ToMicro, Stands, AdmitsOn;
    var es := Reserves(n, limit, est);
    AfterReserves(n, limit, est, cost);
    assert n * est == (n - 1) * est + est;
    assert es[..n - 1] == Reserves(n - 1, limit, est);
    AfterReserves(n - 1, limit, est, cost);
    StepReserve(Run(es[..n - 1]), n - 1, limit, est, cost);
  }

  lemma {:induction false} AfterSettles(n: nat, limit: int, est: int, cost: real, k: nat)
    requires 0 < est <= TWO53 && 0 <= limit < TWO53 && 0 < n && n * est <= limit && k <= n
    requires est <= ToMicro(cost) && n * est + n * (ToMicro(cost) - est) <= TWO53
    ensures var es := Reserves(n, limit, est) + Settles(k, cost);
      && Stands(Run(es), n, limit, est, cost, k)
      && LastAdmission(es, TheKey()) == Some(n - 1)
  {
    hide Run, Step, TheKey, ToMicro, Stands, AdmitsOn;
    var es := Reserves(n, limit, est) + Settles(k, cost);
    if k == 0 {
      assert es == Reserves(n, limit, est);
      LastReserve(n, limit, est, cost);
    } else {
      var before := Reserves(n, limit, est) + Settles(k - 1, cost);
      assert es == before + [Settle(k - 1, cost, Up, true)] && es[..|es| - 1] == before;
      RunStep(es);
      AfterSettles(n, limit, est, cost, k - 1);
      CounterOf(Run(before), n, limit, est, cost, k - 1);
      Fits(n, est, ToMicro(cost) - est, k, TWO53);
      StepSettle(Run(before), n, limit, est, cost, k - 1);
    }
  }

  lemma CounterOf(s: State, n: nat, limit: int, est: int, cost: real, settled: nat)
    requires Stands(s, n, limit, est, cost, settled)
    ensures Counter(s.store, TheKey()) == n * est + settled * (ToMicro(cost) - est)
  {
  }

  lemma {:induction false} CountAll(rs: seq<Request>, limit: int, est: int, cost: real)
    requires forall i :: 0 <= i < |rs| ==> rs[i] == Made(limit, est, cost, 0, i)
    ensures Sum(rs, CountOn(TheKey())) == |rs|
  {
    hide TheKey;
    if rs != [] {
      CountAll(rs[..|rs| - 1], limit, est, cost);
    }
  }

  /** For every number n of requests and every underestimate w there is a run that ends exactly n times w
      above the limit of its last reservation, n being the requests outstanding at it. */
  lemma OvershootTight(n: nat, est: int, w: nat) returns (es: seq<Event>, cost: real)
    requires 0 < n && 0 < est && n * est < TWO53 && n * est + n * w <= TWO53
    ensures var j := LastAdmission(es, TheKey());
      && j.Some? && InRange(es[j.value])
      && (forall i :: 0 <= i < |Run(es).reqs| ==>
            Run(es).reqs[i].status == Settled(cost, 0, true) && Run(es).reqs[i].est == est)
      && ToMicro(cost) == est + w && es[j.value] == Reserve(0, 1, 0, n * est, est, Up)
      && Sum(Run(es[..j.value + 1]).reqs, CountOn(TheKey())) == n
      && Counter(Run(es).store, TheKey()) == es[j.value].limit + w * Sum(Run(es[..j.value + 1]).reqs, CountOn(TheKey()))
  {
    hide ToMicro, TheKey, Run, LastAdmission;
    LessTimes(1, n, est);
    cost := MicroCost(est + w);
    es := AllSettled(n, est, cost, w);
    LastOf(n, n * est, est, es, cost);
  }

  /** A cost of so many micro-USD. */
  lemma MicroCost(micro: nat) returns (cost: real)
    ensures ToMicro(cost) == micro
  {
    cost := micro as real / 1000000.0;
    assert cost * 1000000.0 == micro as real;
  }

  lemma AllSettled(n: nat, est: int, cost: real, w: nat) returns (es: seq<Event>)
    requires 0 < n && 0 < est && n * est < TWO53 && n * est + n * w <= TWO53 && ToMicro(cost) == est + w
    ensures es == Reserves(n, n * est, est) + Settles(n, cost)
    ensures LastAdmission(es, TheKey()) == Some(n - 1)
    ensures forall i :: 0 <= i < |Run(es).reqs| ==>
      Run(es).reqs[i].status == Settled(cost, 0, true) && Run(es).reqs[i].est == est
    ensures Counter(Run(es).store, TheKey()) == n * est + n * w
  {
    hide ToMicro, TheKey, Run, LastAdmission;
    LessTimes(1, n, est);
    es := Reserves(n, n * est, est) + Settles(n, cost);
    AfterSettles(n, n * est, est, cost, n);
  }

  lemma LastOf(n: nat, limit: int, est: int, es: seq<Event>, cost: real)
    requires 0 < est <= TWO53 && 0 <= limit < TWO53 && 0 < n && n * est <= limit
    requires es == Reserves(n, limit, est) + Settles(n, cost)
    ensures es[n - 1] == Reserve(0, 1, 0, limit, est, Up)
    ensures Sum(Run(es[..n]).reqs, CountOn(TheKey())) == n
  {
    hide ToMicro, TheKey, Run, LastAdmission;
    AfterReserves(n, limit, est, cost);
    assert es[..n] == Reserves(n, limit, est);
    CountAll(Run(es[..n]).reqs, limit, est, cost);
  }

  /** A run that ends with a reservation made on the key, whose requests cost at most w more than estimated. */
  ghost predicate Underestimated(es: seq<Event>, w: nat) {
    && LastAdmission(es, TheKey()).Some?
    && InRange(es[LastAdmission(es, TheKey()).value])
    && forall i :: 0 <= i < |Run(es).reqs| && Run(es).reqs[i].status.Settled? ==>
         ToMicro(Run(es).reqs[i].status.cost) <= Run(es).reqs[i].est + w
  }

  ghost predicate CapHolds(es: seq<Event>) {
    LastAdmission(es, TheKey()).Some? ==>
      var e := es[LastAdmission(es, TheKey()).value];
      e.Reserve? && Counter(Run(es).store, TheKey()) <= e.limit
  }

  /** The cap holds in all runs whose requests are underestimated by at most w if and only if w is zero. */
  lemma CapHoldsIff(w: nat)
    ensures (forall es :: Underestimated(es, w) ==> CapHolds(es)) <==> w == 0
  {
    hide Run, TheKey, ToMicro, LastAdmission, InRange;
    if w == 0 {
      forall es | Underestimated(es, 0) ensures CapHolds(es) {
        HardCap(es, TheKey());
        LastIsReserve(es);
      }
    } else {
      var es := CapBroken(w);
    }
  }

  /** One request, estimated at one micro-USD and costing two. */
  lemma CapBroken(w: nat) returns (es: seq<Event>)
    requires w > 0
    ensures Underestimated(es, w) && !CapHolds(es)
  {
    hide Run, TheKey, ToMicro, LastAdmission, InRange;
    var cost;
    es, cost := OvershootTight(1, 1, 1);
    LastIsReserve(es);
  }

  lemma LastIsReserve(es: seq<Event>)
    requires LastAdmission(es, TheKey()).Some?
    ensures es[LastAdmission(es, TheKey()).value].Reserve?
  {
    hide Run, ScriptAllows, MonthKey;
  }
}
