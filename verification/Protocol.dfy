/** Reserve-then-reconcile across replicas: any number of requests, in any interleaving, with lost answers,
    failed reconciles, crashes and expiring keys (internal/budget/budget.go, internal/proxy/proxy.go). */
module Protocol {
  import opened Sums
  import opened Month
  import opened Prices
  import opened Budget

  /** A settled request remembers in which life of its key the reconcile arrived, an unsettled one is a
      request whose reconcile failed; `submitted` says whether its metering event was handed on. */
  datatype Status =
    | Outstanding
    | Settled(cost: real, epoch: nat, submitted: bool)
    | Unsettled(cost: real, submitted: bool)
    | Stranded

  /** A reservation in the store. The epoch is the life of the key in which it was made. */
  datatype Request = Request(replica: nat, key: string, limit: int, est: int, epoch: nat, status: Status)

  /** A metering event: the reservation it belongs to, if any, its tenant and the month of its budget check
      as the text of a key, what was reserved for it, and its CostUSD. */
  datatype Entry = Entry(req: Option<nat>, key: string, est: int, cost: real)

  /** Epochs count how often a key has expired. */
  datatype State = State(store: Store, reqs: seq<Request>, log: seq<Entry>, epochs: map<string, nat>)

  const INIT := State(Store(map[], 0), [], [], map[])

  function Epoch(s: State, key: string): nat {
    if key in s.epochs then s.epochs[key] else 0
  }

  datatype Event =
    | Reserve(replica: nat, tenant: int, clock: nat, limit: int, est: int, link: Link)
    | Settle(req: nat, cost: real, link: Link, submits: bool)
    | Unreserved(tenant: int, clock: nat, cost: real) // metered without a reservation
    | Crash(replica: nat)
    | Tick(seconds: nat)

  function KeyOf(e: Event): string
    requires e.Reserve? || e.Unreserved?
  {
    MonthKey(e.tenant, e.clock)
  }

  /** The event makes a reservation in the store, whether or not the answer arrives. */
  predicate Admits(s: State, e: Event) {
    e.Reserve? && !e.link.Down? && ScriptAllows(s.store, KeyOf(e), e.limit, e.est)
  }

  /** One event; what cannot happen in a state leaves it as it is. */
  function Step(s: State, e: Event): State {
    match e
    case Reserve(_, _, _, _, _, _) => DoReserve(s, e)
    case Settle(_, _, _, _) => DoSettle(s, e)
    case Unreserved(_, _, cost) => s.(log := s.log + [Entry(None, KeyOf(e), 0, cost)])
    case Crash(replica) => s.(reqs := Stranding(s.reqs, replica))
    case Tick(seconds) => DoTick(s, seconds)
  }

  function DoReserve(s: State, e: Event): State
    requires e.Reserve?
  {
    if !Admits(s, e) then s else
      var key := KeyOf(e);
      var status := if e.link.Up? then Outstanding else Stranded;
      s.(store := AfterReserve(s.store, key, e.limit, e.est),
         reqs := s.reqs + [Request(e.replica, key, e.limit, e.est, Epoch(s, key), status)])
  }

  predicate CanSettle(s: State, e: Event) {
    e.Settle? && e.req < |s.reqs| && s.reqs[e.req].status.Outstanding?
  }

  function Delta(s: State, e: Event): int
    requires CanSettle(s, e)
  {
    ToMicro(e.cost) - s.reqs[e.req].est
  }

  /** The reconcile leaves the ledger right: nothing had to be sent, or the increment was applied. */
  predicate Reconciles(s: State, e: Event)
    requires CanSettle(s, e)
  {
    Delta(s, e) == 0 || (!e.link.Down? && Applies(s.store, s.reqs[e.req].key, Delta(s, e)))
  }

  function DoSettle(s: State, e: Event): State
    requires e.Settle?
  {
    if !CanSettle(s, e) then s else
      var r := s.reqs[e.req];
      var log := if e.submits then s.log + [Entry(Some(e.req), r.key, r.est, e.cost)] else s.log;
      if Reconciles(s, e) then
        s.(store := AfterReconcile(s.store, r.key, Delta(s, e)), log := log,
           reqs := s.reqs[e.req := r.(status := Settled(e.cost, Epoch(s, r.key), e.submits))])
      else
        s.(log := log, reqs := s.reqs[e.req := r.(status := Unsettled(e.cost, e.submits))])
  }

  /** A crash strands what the replica has outstanding. */
  function Stranding(rs: seq<Request>, replica: nat): (rs': seq<Request>)
    ensures |rs'| == |rs|
  {
    seq(|rs|, i requires 0 <= i < |rs| =>
      if rs[i].replica == replica && rs[i].status.Outstanding? then rs[i].(status := Stranded) else rs[i])
  }

  function DoTick(s: State, seconds: nat): State {
    var store := Elapse(s.store, seconds);
    var died := map k | k in s.store.cells && k !in store.cells :: Epoch(s, k) + 1;
    s.(store := store, epochs := s.epochs + died)
  }

  function Run(es: seq<Event>): State {
    if es == [] then INIT else Step(Run(es[..|es| - 1]), es[|es| - 1])
  }

  // --- Conservation ---

  /** What a request has put on a key in a given life of the key: its estimate if reserved in it, the
      difference to its actual cost if settled in it. */
  function Weight(r: Request, key: string, epoch: nat): int {
    if r.key != key then 0 else
      (if r.epoch == epoch then r.est else 0)
      + if r.status.Settled? && r.status.epoch == epoch then ToMicro(r.status.cost) - r.est else 0
  }

  function WeightOn(key: string, epoch: nat): Request -> int {
    r => Weight(r, key, epoch)
  }

  /** The ledger of a key in its present life. */
  function Ledger(s: State, key: string): int {
    Sum(s.reqs, WeightOn(key, Epoch(s, key)))
  }

  /** Nothing is from a life of a key that has not begun. */
  ghost predicate Dated(s: State) {
    forall i :: 0 <= i < |s.reqs| ==>
      var r := s.reqs[i];
      r.epoch <= Epoch(s, r.key)
      && (r.status.Settled? ==> r.epoch <= r.status.epoch <= Epoch(s, r.key))
  }

  ghost predicate Conserved(s: State, key: string) {
    Counter(s.store, key) == Ledger(s, key)
  }

  lemma ReserveConserves(s: State, e: Event, key: string)
    requires e.Reserve? && Conserved(s, key)
    ensures Conserved(Step(s, e), key)
  {
    hide ScriptAllows, MonthKey, ToMicro;
    if Admits(s, e) {
      var s' := Step(s, e);
      SumAppend(s.reqs, s'.reqs[|s.reqs|], WeightOn(key, Epoch(s, key)));
    }
  }

  /** What a settlement leaves of a request. */
  function SettledStatus(s: State, e: Event): Status
    requires CanSettle(s, e)
  {
    if Reconciles(s, e) then Settled(e.cost, Epoch(s, s.reqs[e.req].key), e.submits)
    else Unsettled(e.cost, e.submits)
  }

  /** A settlement replaces one request, and moves the counter of that request's key only, by the delta. */
  lemma SettleEffect(s: State, e: Event, key: string)
    requires CanSettle(s, e)
    ensures Step(s, e).epochs == s.epochs
    ensures Step(s, e).reqs == s.reqs[e.req := s.reqs[e.req].(status := SettledStatus(s, e))]
    ensures Counter(Step(s, e).store, key) == Counter(s.store, key)
      + (if key == s.reqs[e.req].key && Reconciles(s, e) then Delta(s, e) else 0)
  {
    hide ToMicro;
  }

  lemma SettleConserves(s: State, e: Event, key: string)
    requires e.Settle? && Dated(s) && Conserved(s, key)
    ensures Conserved(Step(s, e), key)
  {
    if CanSettle(s, e) {
      hide ToMicro, Step, Reconciles;
      SettleEffect(s, e, key);
      var r' := s.reqs[e.req].(status := SettledStatus(s, e));
      SumUpdate(s.reqs, e.req, r', WeightOn(key, Epoch(s, key)));
    }
  }

  lemma CrashConserves(s: State, e: Event, key: string)
    requires e.Crash? && Conserved(s, key)
    ensures Conserved(Step(s, e), key)
  {
    hide ToMicro;
    var s' := Step(s, e);
    var f := WeightOn(key, Epoch(s, key));
    SumLe(s.reqs, f, s'.reqs, f);
    SumLe(s'.reqs, f, s.reqs, f);
  }

  lemma TickConserves(s: State, e: Event, key: string)
    requires e.Tick? && Dated(s) && Conserved(s, key)
    ensures Conserved(Step(s, e), key)
  {
    hide ToMicro;
    var s' := Step(s, e);
    if key in s.store.cells && key !in s'.store.cells {
      assert Epoch(s', key) == Epoch(s, key) + 1;
      SumZero(s.reqs, WeightOn(key, Epoch(s', key)));
    }
  }

  lemma StepDated(s: State, e: Event)
    requires Dated(s)
    ensures Dated(Step(s, e))
    ensures forall key :: Epoch(s, key) <= Epoch(Step(s, e), key)
  {
    hide ScriptAllows, MonthKey, ToMicro, AfterReserve, AfterReconcile, Reconciles;
  }

  lemma StepConserves(s: State, e: Event, key: string)
    requires Dated(s) && Conserved(s, key)
    ensures Conserved(Step(s, e), key)
  {
    hide ToMicro, DoReserve, DoSettle, DoTick, Stranding, Sum;
    match e
    case Reserve(_, _, _, _, _, _) => ReserveConserves(s, e, key);
    case Settle(_, _, _, _) => SettleConserves(s, e, key);
    case Unreserved(_, _, _) =>
    case Crash(_) => CrashConserves(s, e, key);
    case Tick(_) => TickConserves(s, e, key);
  }

  /** In every run, whatever expired, crashed or failed: a counter is the ledger of its key's present life. */
  lemma {:induction false} Conservation(es: seq<Event>, key: string)
    ensures Dated(Run(es)) && Conserved(Run(es), key)
  {
    if es == [] {
      SumZero([], WeightOn(key, 0));
    } else {
      hide Step, Conserved, Dated;
      Conservation(es[..|es| - 1], key);
      StepDated(Run(es[..|es| - 1]), es[|es| - 1]);
      StepConserves(Run(es[..|es| - 1]), es[|es| - 1], key);
    }
  }

  // --- A key that has never expired ---

  /** The estimates of requests still being forwarded. */
  function OutstandingOn(key: string): Request -> int {
    (r: Request) => if r.key == key && r.status.Outstanding? then r.est else 0
  }

  /** The actual costs of settled requests. */
  function SettledOn(key: string): Request -> int {
    (r: Request) => if r.key == key && r.status.Settled? then ToMicro(r.status.cost) else 0
  }

  /** The estimates left behind by crashes, lost answers and failed reconciles. */
  function StrandedOn(key: string): Request -> int {
    (r: Request) => if r.key == key && (r.status.Stranded? || r.status.Unsettled?) then r.est else 0
  }

  lemma {:induction false} WeightParts(rs: seq<Request>, key: string)
    requires forall i :: 0 <= i < |rs| && rs[i].key == key ==>
      rs[i].epoch == 0 && (rs[i].status.Settled? ==> rs[i].status.epoch == 0)
    ensures Sum(rs, WeightOn(key, 0))
         == Sum(rs, OutstandingOn(key)) + Sum(rs, SettledOn(key)) + Sum(rs, StrandedOn(key))
  {
    hide ToMicro;
    if rs != [] {
      WeightParts(rs[..|rs| - 1], key);
    }
  }

  /** Conservation in the plain form, while a key has not expired. */
  lemma UnexpiredLedger(es: seq<Event>, key: string)
    requires Epoch(Run(es), key) == 0
    ensures var s := Run(es);
      Counter(s.store, key)
      == Sum(s.reqs, OutstandingOn(key)) + Sum(s.reqs, SettledOn(key)) + Sum(s.reqs, StrandedOn(key))
  {
    hide Run;
    Conservation(es, key);
    WeightParts(Run(es).reqs, key);
  }

  lemma {:induction false} SumNonNegative<T>(xs: seq<T>, f: T -> int)
    requires forall i :: 0 <= i < |xs| ==> f(xs[i]) >= 0
    ensures Sum(xs, f) >= 0
  {
    if xs != [] {
      SumNonNegative(xs[..|xs| - 1], f);
    }
  }

  /** With estimates and costs that are not negative, the counter of an unexpired key is not negative. */
  lemma UnexpiredNonNegative(es: seq<Event>, key: string)
    requires Epoch(Run(es), key) == 0
    requires forall i :: 0 <= i < |Run(es).reqs| && Run(es).reqs[i].key == key ==>
      var r := Run(es).reqs[i];
      r.est >= 0 && (r.status.Settled? ==> ToMicro(r.status.cost) >= 0)
    ensures Counter(Run(es).store, key) >= 0
  {
    hide Run, ToMicro;
    UnexpiredLedger(es, key);
    var rs := Run(es).reqs;
    SumNonNegative(rs, OutstandingOn(key));
    SumNonNegative(rs, SettledOn(key));
    SumNonNegative(rs, StrandedOn(key));
  }

  // --- Lost answers ---

  lemma StrandedStep(s: State, e: Event, i: nat)
    requires i < |s.reqs| && s.reqs[i].status.Stranded?
    ensures i < |Step(s, e).reqs| && Step(s, e).reqs[i] == s.reqs[i]
  {
    hide ScriptAllows, MonthKey, ToMicro, AfterReserve, AfterReconcile, Reconciles;
  }

  lemma {:induction false} StrandedStays(es: seq<Event>, more: seq<Event>, i: nat)
    requires i < |Run(es).reqs| && Run(es).reqs[i].status.Stranded?
    ensures i < |Run(es + more).reqs| && Run(es + more).reqs[i] == Run(es).reqs[i]
  {
    hide Step;
    if more == [] {
      assert es + more == es;
    } else {
      var n := |more| - 1;
      assert (es + more)[..|es + more| - 1] == es + more[..n] && (es + more)[|es + more| - 1] == more[n];
      StrandedStays(es, more[..n], i);
      StrandedStep(Run(es + more[..n]), more[n], i);
    }
  }

  /** A reservation that was made but whose answer was lost is never settled: in every continuation the counter
      is its estimate and what the other requests have put there, as long as the key has not expired since;
      once it has, the estimate is gone. */
  lemma LostAnswerStays(es: seq<Event>, e: Event, more: seq<Event>)
    requires e.Reserve? && e.link.AnswerLost? && Admits(Run(es), e)
    ensures var i, s, key := |Run(es).reqs|, Run(es + [e] + more), KeyOf(e);
      && i < |s.reqs| && s.reqs[i].status.Stranded? && s.reqs[i].key == key && s.reqs[i].est == e.est
      && Counter(s.store, key) == (if Epoch(s, key) == Epoch(Run(es), key) then e.est else 0)
                                  + Sum(s.reqs[..i] + s.reqs[i + 1..], WeightOn(key, Epoch(s, key)))
  {
    hide Run, ScriptAllows, MonthKey, AfterReserve, ToMicro;
    RunSnoc(es, e);
    StrandedStays(es + [e], more, |Run(es).reqs|);
    var s, key := Run(es + [e] + more), KeyOf(e);
    Conservation(es + [e] + more, key);
    SumSplit(s.reqs, |Run(es).reqs|, WeightOn(key, Epoch(s, key)));
  }

  /** So while the key has not expired, and estimates and costs are not negative, the counter is at least the
      estimate that nobody will use. */
  lemma LostAnswerCounts(es: seq<Event>, e: Event, more: seq<Event>)
    requires e.Reserve? && e.link.AnswerLost? && Admits(Run(es), e) && Epoch(Run(es + [e] + more), KeyOf(e)) == 0
    requires forall i :: 0 <= i < |Run(es + [e] + more).reqs| && Run(es + [e] + more).reqs[i].key == KeyOf(e) ==>
      var r := Run(es + [e] + more).reqs[i];
      r.est >= 0 && (r.status.Settled? ==> ToMicro(r.status.cost) >= 0)
    ensures Counter(Run(es + [e] + more).store, KeyOf(e)) >= e.est
  {
    hide Run, ScriptAllows, MonthKey, ToMicro;
    LostAnswerStays(es, e, more);
    var i, s, key := |Run(es).reqs|, Run(es + [e] + more), KeyOf(e);
    EpochsGrow(es, [e] + more, key);
    assert es + ([e] + more) == es + [e] + more;
    Conservation(es + [e] + more, key);
    SumNonNegative(s.reqs[..i] + s.reqs[i + 1..], WeightOn(key, 0));
  }

  lemma {:induction false} EpochsGrow(es: seq<Event>, more: seq<Event>, key: string)
    ensures Epoch(Run(es), key) <= Epoch(Run(es + more), key)
  {
    hide Step, Epoch, Dated;
    if more == [] {
      assert es + more == es;
    } else {
      var n := |more| - 1;
      assert (es + more)[..|es + more| - 1] == es + more[..n] && (es + more)[|es + more| - 1] == more[n];
      EpochsGrow(es, more[..n], key);
      Conservation(es + more[..n], key);
      StepDated(Run(es + more[..n]), more[n]);
    }
  }

  lemma RunSnoc(es: seq<Event>, e: Event)
    ensures Run(es + [e]) == Step(Run(es), e)
  {
    hide Step;
    assert (es + [e])[..|es|] == es;
  }

  // --- Keys that have expired ---

  /** After an expiry it can be: a late refund recreates the key below zero, and without a time to live. */
  lemma NegativeAfterExpiry(limit: int, est: int)
    requires 0 < est <= limit < TWO53
    ensures var key := MonthKey(1, 0);
      var st := Run([Reserve(0, 1, 0, limit, est, Up), Tick(TTL), Settle(0, 0.0, Up, true)]).store;
      Counter(st, key) == -est && Expiry(st, key) == None
  {
    hide MonthKey, Exceeds, Sum;
    var a, b, c := Reserve(0, 1, 0, limit, est, Up), Tick(TTL), Settle(0, 0.0, Up, true);
    var es := [a, b, c];
    assert es[..2] == [a, b] && [a, b][..1] == [a] && [a][..0] == [];
    AllowedWithinLimit(INIT.store, MonthKey(1, 0), limit, est);
    var s1 := Step(INIT, a);
    assert Run([a]) == s1;
    var s2 := Step(s1, b);
    assert Run([a, b]) == s2;
    assert s2.store.cells == map[];
    assert ToMicro(0.0) == 0;
    assert Run(es) == Step(s2, c);
  }
}
