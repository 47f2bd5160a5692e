/** The later lives of a counter: what it is after its key has expired, and when it has no time to live. */
module Lives {
  import opened Sums
  import opened Month
  import opened Prices
  import opened Budget
  import opened Protocol

  /** The corrections of requests from earlier lives of the key that were settled in this one. */
  function LateOn(key: string, epoch: nat): Request -> int {
    (r: Request) =>
      if r.key == key && r.epoch < epoch && r.status.Settled? && r.status.epoch == epoch
      then ToMicro(r.status.cost) - r.est else 0
  }

  /** The requests reserved in this life: at their cost if settled in it, else at their estimate. */
  function HereOn(key: string, epoch: nat): Request -> int {
    (r: Request) =>
      if r.key != key || r.epoch != epoch then 0
      else if r.status.Settled? && r.status.epoch == epoch then ToMicro(r.status.cost) else r.est
  }

  /** In every run a counter is what its present life reserved, plus the corrections of earlier lives that
      came late. */
  lemma LifeLedger(es: seq<Event>, key: string)
    ensures var s := Run(es);
      Counter(s.store, key) == Sum(s.reqs, HereOn(key, Epoch(s, key))) + Sum(s.reqs, LateOn(key, Epoch(s, key)))
  {
    hide Run, ToMicro;
    Conservation(es, key);
    var s := Run(es);
    SumPlus(s.reqs, HereOn(key, Epoch(s, key)), LateOn(key, Epoch(s, key)), WeightOn(key, Epoch(s, key)));
  }

  /** Some request was reserved in the present life of the key. */
  ghost predicate ReservedNow(s: State, key: string) {
    exists i :: 0 <= i < |s.reqs| && s.reqs[i].key == key && s.reqs[i].epoch == Epoch(s, key)
  }

  /** Some request was settled in the present life of the key, at another cost than its estimate. */
  ghost predicate CorrectedNow(s: State, key: string) {
    exists i :: 0 <= i < |s.reqs| && Corrects(s.reqs[i], key, Epoch(s, key))
  }

  predicate Corrects(r: Request, key: string, epoch: nat) {
    r.key == key && r.status.Settled? && r.status.epoch == epoch && ToMicro(r.status.cost) != r.est
  }

  /** With estimates and costs that are not negative, a counter is negative exactly if late refunds outweigh
      what its present life has reserved; with no reservation in it, exactly if the late corrections are
      negative. */
  lemma NegativeIff(es: seq<Event>, key: string)
    ensures var s, late := Run(es), Sum(Run(es).reqs, LateOn(key, Epoch(Run(es), key)));
      && (Counter(s.store, key) < 0 <==> Sum(s.reqs, HereOn(key, Epoch(s, key))) < -late)
      && (!ReservedNow(s, key) ==> (Counter(s.store, key) < 0 <==> late < 0))
      && (Counter(s.store, key) < 0 && (forall i :: 0 <= i < |s.reqs| && s.reqs[i].key == key ==>
            s.reqs[i].est >= 0 && (s.reqs[i].status.Settled? ==> ToMicro(s.reqs[i].status.cost) >= 0)) ==>
          late < 0 && Epoch(s, key) > 0)
  {
    hide Run, ToMicro;
    LifeLedger(es, key);
    var s := Run(es);
    var epoch := Epoch(s, key);
    if !ReservedNow(s, key) {
      SumZero(s.reqs, HereOn(key, epoch));
    }
    if forall i :: 0 <= i < |s.reqs| && s.reqs[i].key == key ==>
      s.reqs[i].est >= 0 && (s.reqs[i].status.Settled? ==> ToMicro(s.reqs[i].status.cost) >= 0)
    {
      SumNonNegative(s.reqs, HereOn(key, epoch));
      if epoch == 0 {
        SumZero(s.reqs, LateOn(key, epoch));
      }
    }
  }

  /** A key is there while its present life has reserved or corrected, with a time to live if it reserved. */
  ghost predicate Lived(s: State, key: string) {
    && (key in s.store.cells <==> ReservedNow(s, key) || CorrectedNow(s, key))
    && (Expiry(s.store, key).Some? <==> ReservedNow(s, key))
  }

  lemma LivedReserve(s: State, e: Event, key: string)
    requires Lived(s, key) && Dated(s) && e.Reserve?
    ensures Lived(Step(s, e), key)
  {
    hide ScriptAllows, MonthKey, ToMicro;
    var s' := Step(s, e);
    if Admits(s, e) {
      assert forall i :: 0 <= i < |s.reqs| ==> s'.reqs[i] == s.reqs[i];
      assert KeyOf(e) == key ==> s'.reqs[|s.reqs|].key == key && s'.reqs[|s.reqs|].epoch == Epoch(s', key);
    }
  }

  lemma LivedSettle(s: State, e: Event, key: string)
    requires Lived(s, key) && Dated(s) && e.Settle?
    ensures Lived(Step(s, e), key)
  {
    hide ToMicro;
    if CanSettle(s, e) {
      var s' := Step(s, e);
      assert forall i :: 0 <= i < |s.reqs| && i != e.req ==> s'.reqs[i] == s.reqs[i];
      assert s'.reqs[e.req].key == s.reqs[e.req].key && s'.reqs[e.req].epoch == s.reqs[e.req].epoch;
      assert Corrects(s'.reqs[e.req], key, Epoch(s, key)) <==>
        key == s.reqs[e.req].key && Reconciles(s, e) && Delta(s, e) != 0;
    }
  }

  lemma LivedCrash(s: State, e: Event, key: string)
    requires Lived(s, key) && e.Crash?
    ensures Lived(Step(s, e), key)
  {
    hide ToMicro;
    var s' := Step(s, e);
    assert forall i :: 0 <= i < |s.reqs| ==> s'.reqs[i].key == s.reqs[i].key && s'.reqs[i].epoch == s.reqs[i].epoch;
    assert forall i :: 0 <= i < |s.reqs| ==>
      (Corrects(s'.reqs[i], key, Epoch(s, key)) <==> Corrects(s.reqs[i], key, Epoch(s, key)));
  }

  lemma LivedTick(s: State, e: Event, key: string)
    requires Lived(s, key) && Dated(s) && e.Tick?
    ensures Lived(Step(s, e), key)
  {
    hide ToMicro;
    var s' := Step(s, e);
    assert s'.reqs == s.reqs;
    if key in s.store.cells && key !in s'.store.cells {
      assert Epoch(s', key) == Epoch(s, key) + 1;
      assert !ReservedNow(s', key) && !CorrectedNow(s', key);
    }
  }

  lemma LivedStep(s: State, e: Event, key: string)
    requires Lived(s, key) && Dated(s)
    ensures Lived(Step(s, e), key)
  {
    hide ToMicro, DoReserve, DoSettle, DoTick, Stranding;
    match e
    case Reserve(_, _, _, _, _, _) => LivedReserve(s, e, key);
    case Settle(_, _, _, _) => LivedSettle(s, e, key);
    case Unreserved(_, _, _) =>
    case Crash(_) => LivedCrash(s, e, key);
    case Tick(_) => LivedTick(s, e, key);
  }

  lemma {:induction false} RunLived(es: seq<Event>, key: string)
    ensures Lived(Run(es), key)
  {
    if es != [] {
      hide Step, Lived;
      Conservation(es[..|es| - 1], key);
      RunLived(es[..|es| - 1], key);
      LivedStep(Run(es[..|es| - 1]), es[|es| - 1], key);
    }
  }

  /** In every run: a counter is there without a time to live exactly if a correction recreated its key and
      nothing has been reserved on it since its last expiry. */
  lemma PersistentIff(es: seq<Event>, key: string)
    ensures var s := Run(es);
      && (key in s.store.cells && Expiry(s.store, key).None? <==> !ReservedNow(s, key) && CorrectedNow(s, key))
      && (key in s.store.cells && Expiry(s.store, key).None? ==> Epoch(s, key) > 0)
  {
    hide Run;
    Conservation(es, key);
    RunLived(es, key);
  }
}
