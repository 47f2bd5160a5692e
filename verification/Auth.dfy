/** internal/auth/auth.go: a cache of positive lookups with a time to live, over a source of truth that
    changes, with lookups that run outside the lock and may finish in any order. */
module Auth {
  import opened Sums

  type Hash = string

  datatype Tenant = Tenant(id: int, name: string, failOpen: bool, budget: Option<real>)

  /** What the source of truth holds at each instant. */
  type Truth = nat -> map<Hash, Tenant>

  datatype Entry = Entry(t: Tenant, expires: nat)

  const DEFAULT_TTL := 30_000_000_000 // nanoseconds

  // --- The cache under racing resolves, as a state machine ---

  /** A resolve between its two locked sections: it has missed, and its lookup has not yet, or has, read the
      source. */
  datatype Lookup =
    | Missed(hash: Hash)
    | Looked(hash: Hash, read: nat, found: Option<Tenant>)

  /** A tenant handed to a request. */
  datatype Answer = Answer(hash: Hash, t: Tenant, time: nat)

  datatype State = State(now: nat, cache: map<Hash, Entry>, flying: seq<Lookup>, answers: seq<Answer>)

  const INIT := State(0, map[], [], [])

  datatype Action =
    | Elapse(d: nat)
    | Ask(hash: Hash)  // the first locked section: a hit answers, a miss starts a lookup
    | Look(i: nat)     // lookup i reads the source, whatever the cache has become
    | Finish(i: nat)   // the second locked section of lookup i, in whatever order
    | Fail(i: nat)     // lookup i returns an error

  /** The cache answers while its entry has not expired. */
  predicate Hit(cache: map<Hash, Entry>, hash: Hash, now: nat) {
    hash in cache && now < cache[hash].expires
  }

  function Read(m: map<Hash, Tenant>, hash: Hash): Option<Tenant> {
    if hash in m then Some(m[hash]) else None
  }

  function Without(flying: seq<Lookup>, i: nat): seq<Lookup>
    requires i < |flying|
  {
    flying[..i] + flying[i + 1..]
  }

  /** One action; what cannot happen in a state leaves it as it is. */
  function Step(s: State, truth: Truth, ttl: nat, a: Action): State {
    match a
    case Elapse(d) => s.(now := s.now + d)
    case Ask(hash) =>
      if Hit(s.cache, hash, s.now) then s.(answers := s.answers + [Answer(hash, s.cache[hash].t, s.now)])
      else s.(flying := s.flying + [Missed(hash)])
    case Look(i) =>
      if i >= |s.flying| || s.flying[i].Looked? then s else
        var hash := s.flying[i].hash;
        s.(flying := s.flying[i := Looked(hash, s.now, Read(truth(s.now), hash))])
    case Finish(i) =>
      if i >= |s.flying| || s.flying[i].Missed? then s else
        var l := s.flying[i];
        if l.found.None? then s.(flying := Without(s.flying, i)) else
          s.(flying := Without(s.flying, i), cache := Put(s.cache, l.hash, l.found.value, s.now + ttl),
             answers := s.answers + [Answer(l.hash, l.found.value, s.now)])
    case Fail(i) =>
      if i >= |s.flying| then s else s.(flying := Without(s.flying, i))
  }

  function Run(truth: Truth, ttl: nat, actions: seq<Action>): State {
    if actions == [] then INIT
    else Step(Run(truth, ttl, actions[..|actions| - 1]), truth, ttl, actions[|actions| - 1])
  }

  /** A lookup that errs, or finds nothing, ends without a trace: nothing is cached and nobody is answered, so
      that the next resolve of its key asks the source again. */
  lemma NothingFound(s: State, truth: Truth, ttl: nat, a: Action)
    requires (a.Fail? && a.i < |s.flying|)
          || (a.Finish? && a.i < |s.flying| && s.flying[a.i].Looked? && s.flying[a.i].found.None?)
    ensures var s' := Step(s, truth, ttl, a);
      && s' == s.(flying := s.flying[..a.i] + s.flying[a.i + 1..])
      && forall h :: !Hit(s.cache, h, s.now) ==> Step(s', truth, ttl, Ask(h)).flying == s'.flying + [Missed(h)]
  {
  }

  /** A finishing lookup took no more than d since its read. */
  predicate InTime(s: State, a: Action, d: nat) {
    a.Finish? && a.i < |s.flying| && s.flying[a.i].Looked? ==> s.now <= s.flying[a.i].read + d
  }

  /** No lookup takes more than d from its read to the end of its resolve. */
  ghost predicate Prompt(truth: Truth, ttl: nat, d: nat, actions: seq<Action>) {
    forall k :: 0 <= k < |actions| ==> InTime(Run(truth, ttl, actions[..k]), actions[k], d)
  }

  /** The source held t for the hash at the instant r. */
  predicate Held(truth: Truth, hash: Hash, t: Tenant, r: nat) {
    hash in truth(r) && truth(r)[hash] == t
  }

  /** t was read at an instant from which it may still be answered until just before `until`. */
  ghost predicate ReadSince(truth: Truth, hash: Hash, t: Tenant, now: nat, until: nat, span: nat) {
    exists r :: 0 <= r <= now && Held(truth, hash, t, r) && until <= r + span
  }

  /** The answer is what the source held at some instant less than `span` before. */
  ghost predicate Recent(truth: Truth, a: Answer, span: nat) {
    exists r :: 0 <= r <= a.time && Held(truth, a.hash, a.t, r) && a.time < r + span
  }

  /** What a lookup has found is what the source held when it read. */
  predicate FoundThen(truth: Truth, l: Lookup, now: nat) {
    l.Looked? ==> l.read <= now && l.found == Read(truth(l.read), l.hash)
  }

  ghost predicate Sound(s: State, truth: Truth, ttl: nat, d: nat) {
    && (forall h :: h in s.cache ==> ReadSince(truth, h, s.cache[h].t, s.now, s.cache[h].expires, ttl + d))
    && (forall i :: 0 <= i < |s.flying| ==> FoundThen(truth, s.flying[i], s.now))
    && (forall i :: 0 <= i < |s.answers| ==> Recent(truth, s.answers[i], ttl + d))
  }

  lemma SoundElapse(s: State, truth: Truth, ttl: nat, d: nat, a: Action)
    requires Sound(s, truth, ttl, d) && a.Elapse?
    ensures Sound(Step(s, truth, ttl, a), truth, ttl, d)
  {
    hide Recent;
    var s' := Step(s, truth, ttl, a);
    forall h | h in s'.cache ensures ReadSince(truth, h, s'.cache[h].t, s'.now, s'.cache[h].expires, ttl + d) {
      var r :| 0 <= r <= s.now && Held(truth, h, s.cache[h].t, r) && s.cache[h].expires <= r + (ttl + d);
    }
  }

  lemma SoundAsk(s: State, truth: Truth, ttl: nat, d: nat, a: Action)
    requires Sound(s, truth, ttl, d) && a.Ask?
    ensures Sound(Step(s, truth, ttl, a), truth, ttl, d)
  {
    if Hit(s.cache, a.hash, s.now) {
      assert ReadSince(truth, a.hash, s.cache[a.hash].t, s.now, s.cache[a.hash].expires, ttl + d);
      assert Recent(truth, Answer(a.hash, s.cache[a.hash].t, s.now), ttl + d);
    }
    hide ReadSince, Recent;
  }

  lemma SoundLook(s: State, truth: Truth, ttl: nat, d: nat, a: Action)
    requires Sound(s, truth, ttl, d) && a.Look?
    ensures Sound(Step(s, truth, ttl, a), truth, ttl, d)
  {
    hide ReadSince, Recent;
  }

  lemma SoundFinish(s: State, truth: Truth, ttl: nat, d: nat, a: Action)
    requires Sound(s, truth, ttl, d) && a.Finish? && InTime(s, a, d) && ttl > 0
    ensures Sound(Step(s, truth, ttl, a), truth, ttl, d)
  {
    if a.i < |s.flying| && s.flying[a.i].Looked? && s.flying[a.i].found.Some? {
      var l := s.flying[a.i];
      assert FoundThen(truth, l, s.now);
      assert Held(truth, l.hash, l.found.value, l.read);
      assert ReadSince(truth, l.hash, l.found.value, s.now, s.now + ttl, ttl + d);
      assert Recent(truth, Answer(l.hash, l.found.value, s.now), ttl + d);
    }
    hide ReadSince, Recent, FoundThen;
  }

  lemma SoundFail(s: State, truth: Truth, ttl: nat, d: nat, a: Action)
    requires Sound(s, truth, ttl, d) && a.Fail?
    ensures Sound(Step(s, truth, ttl, a), truth, ttl, d)
  {
    hide ReadSince, Recent, FoundThen;
  }

  lemma PromptPrefix(truth: Truth, ttl: nat, d: nat, actions: seq<Action>)
    requires actions != [] && Prompt(truth, ttl, d, actions)
    ensures Prompt(truth, ttl, d, actions[..|actions| - 1])
    ensures InTime(Run(truth, ttl, actions[..|actions| - 1]), actions[|actions| - 1], d)
  {
    hide Run, InTime;
    forall k | 0 <= k < |actions| - 1 ensures actions[..|actions| - 1][..k] == actions[..k] {}
  }

  lemma {:induction false} RunSound(truth: Truth, ttl: nat, d: nat, actions: seq<Action>)
    requires Prompt(truth, ttl, d, actions) && ttl > 0
    ensures Sound(Run(truth, ttl, actions), truth, ttl, d)
  {
    hide Step, Sound, Prompt, InTime;
    if actions == [] {
      assert Sound(INIT, truth, ttl, d) by { InitSound(truth, ttl, d); }
    } else {
      var before, a := actions[..|actions| - 1], actions[|actions| - 1];
      PromptPrefix(truth, ttl, d, actions);
      RunSound(truth, ttl, d, before);
      match a
      case Elapse(_) => SoundElapse(Run(truth, ttl, before), truth, ttl, d, a);
      case Ask(_) => SoundAsk(Run(truth, ttl, before), truth, ttl, d, a);
      case Look(_) => SoundLook(Run(truth, ttl, before), truth, ttl, d, a);
      case Finish(_) => SoundFinish(Run(truth, ttl, before), truth, ttl, d, a);
      case Fail(_) => SoundFail(Run(truth, ttl, before), truth, ttl, d, a);
    }
  }

  lemma InitSound(truth: Truth, ttl: nat, d: nat)
    ensures Sound(INIT, truth, ttl, d)
  {
  }

  /** Every tenant ever answered, at a time t, is what the source of truth held for that hash at some
      instant in (t - ttl - d, t], even when an older lookup overwrote a newer entry. No authenticator has a
      ttl of 0. */
  lemma Staleness(truth: Truth, ttl: nat, d: nat, actions: seq<Action>, k: nat)
    requires Prompt(truth, ttl, d, actions) && ttl > 0
    requires k < |Run(truth, ttl, actions).answers|
    ensures Recent(truth, Run(truth, ttl, actions).answers[k], ttl + d)
  {
    RunSound(truth, ttl, d, actions);
    hide Recent, ReadSince, Prompt;
  }

  /** Every answer of the run is younger than the span. */
  ghost predicate AllRecent(truth: Truth, ttl: nat, actions: seq<Action>, span: nat) {
    forall k :: 0 <= k < |Run(truth, ttl, actions).answers| ==> Recent(truth, Run(truth, ttl, actions).answers[k], span)
  }

  /** The time to live bounds the age of every answer, in all runs over all histories of the source, if and
      only if no time passes between a lookup's read and the end of its resolve. */
  lemma WithinTtlIff(ttl: nat, d: nat)
    requires ttl > 0
    ensures (forall truth: Truth, actions: seq<Action> ::
               Prompt(truth, ttl, d, actions) ==> AllRecent(truth, ttl, actions, ttl)) <==> d == 0
  {
    hide Run, Prompt, Recent;
    if d == 0 {
      forall truth: Truth, actions: seq<Action> | Prompt(truth, ttl, d, actions)
        ensures AllRecent(truth, ttl, actions, ttl)
      {
        forall k | 0 <= k < |Run(truth, ttl, actions).answers|
          ensures Recent(truth, Run(truth, ttl, actions).answers[k], ttl)
        {
          Staleness(truth, ttl, 0, actions, k);
        }
      }
    } else {
      TooOld(ttl, d);
    }
  }

  /** The run of RevokedButAnswered, with one key that is revoked at instant 1. */
  lemma TooOld(ttl: nat, d: nat)
    requires ttl > 0 && d > 0
    ensures exists truth: Truth, actions: seq<Action> ::
      Prompt(truth, ttl, d, actions) && !AllRecent(truth, ttl, actions, ttl)
  {
    hide Run, Prompt;
    var t := Tenant(1, "", false, None);
    var truth: Truth := now => if now == 0 then map["" := t] else map[];
    RevokedButAnswered(truth, "", t, ttl, d);
    assert !Recent(truth, Run(truth, ttl, LateRun("", ttl, d)).answers[1], ttl);
    assert Prompt(truth, ttl, d, LateRun("", ttl, d)) && !AllRecent(truth, ttl, LateRun("", ttl, d), ttl);
  }

  /** A lookup reads, a second one reads d later and ends first, then the first one ends. */
  function Overtaken(hash: Hash, d: nat): seq<Action> {
    [Ask(hash), Look(0), Elapse(d), Ask(hash), Look(1), Finish(1), Finish(0)]
  }

  function LateRun(hash: Hash, ttl: nat, d: nat): seq<Action>
    requires ttl > 0
  {
    Overtaken(hash, d) + [Elapse(ttl - 1)] + [Ask(hash)]
  }

  /** A tenant that is revoked at instant 1 is answered after its time to live, and after a newer lookup
      had found nothing: the older lookup, read before the revocation, stored its entry late. */
  lemma RevokedButAnswered(truth: Truth, hash: Hash, t: Tenant, ttl: nat, d: nat)
    requires ttl > 0 && d > 0
    requires Held(truth, hash, t, 0) && forall n :: n >= 1 ==> hash !in truth(n)
    ensures Prompt(truth, ttl, d, LateRun(hash, ttl, d))
    ensures Run(truth, ttl, LateRun(hash, ttl, d)).answers == [Answer(hash, t, d), Answer(hash, t, d + ttl - 1)]
  {
    hide Run, Prompt, Overtaken;
    OvertakenRun(truth, hash, t, ttl, d);
    var start := Overtaken(hash, d);
    PromptThen(truth, ttl, d, start, Elapse(ttl - 1));
    PromptThen(truth, ttl, d, start + [Elapse(ttl - 1)], Ask(hash));
  }

  lemma OvertakenRun(truth: Truth, hash: Hash, t: Tenant, ttl: nat, d: nat)
    requires ttl > 0 && d > 0
    requires Held(truth, hash, t, 0) && hash !in truth(d)
    ensures Prompt(truth, ttl, d, Overtaken(hash, d))
    ensures Run(truth, ttl, Overtaken(hash, d)) == State(d, map[hash := Entry(t, d + ttl)], [], [Answer(hash, t, d)])
  {
    hide Run, Prompt;
    var a, l, e, l1, f1, f0 := Ask(hash), Look(0), Elapse(d), Look(1), Finish(1), Finish(0);
    Start(truth, ttl, d);
    PromptThen(truth, ttl, d, [], a);
    PromptThen(truth, ttl, d, [] + [a], l);
    PromptThen(truth, ttl, d, [] + [a] + [l], e);
    PromptThen(truth, ttl, d, [] + [a] + [l] + [e], a);
    var s4 := Run(truth, ttl, [] + [a] + [l] + [e] + [a]);
    assert s4 == State(d, map[], [Looked(hash, 0, Some(t)), Missed(hash)], []);
    PromptThen(truth, ttl, d, [] + [a] + [l] + [e] + [a], l1);
    PromptThen(truth, ttl, d, [] + [a] + [l] + [e] + [a] + [l1], f1);
    assert Run(truth, ttl, [] + [a] + [l] + [e] + [a] + [l1] + [f1]) == State(d, map[], [Looked(hash, 0, Some(t))], []);
    PromptThen(truth, ttl, d, [] + [a] + [l] + [e] + [a] + [l1] + [f1], f0);
    assert [] + [a] + [l] + [e] + [a] + [l1] + [f1] + [f0] == Overtaken(hash, d);
  }

  lemma PromptThen(truth: Truth, ttl: nat, d: nat, before: seq<Action>, a: Action)
    requires Prompt(truth, ttl, d, before) && InTime(Run(truth, ttl, before), a, d)
    ensures Prompt(truth, ttl, d, before + [a])
    ensures Run(truth, ttl, before + [a]) == Step(Run(truth, ttl, before), truth, ttl, a)
  {
    hide Step, InTime;
    var after := before + [a];
    assert after[..|before|] == before;
    forall k | 0 <= k < |after| ensures InTime(Run(truth, ttl, after[..k]), after[k], d) {
      if k < |before| {
        assert after[..k] == before[..k] && after[k] == before[k];
      }
    }
  }

  lemma Start(truth: Truth, ttl: nat, d: nat)
    ensures Run(truth, ttl, []) == INIT && Prompt(truth, ttl, d, [])
  {
  }

  // --- The authenticator object ---

  datatype Resolved = Found(t: Tenant) | Unknown | Unavailable

  /** What another resolve stores in the cache after some time has passed. */
  datatype Other = Other(wait: nat, hash: Hash, t: Tenant)

  function Put(cache: map<Hash, Entry>, hash: Hash, t: Tenant, until: nat): map<Hash, Entry> {
    cache[hash := Entry(t, until)]
  }

  /** The clock after the others. */
  function Later(now: nat, others: seq<Other>): nat {
    if others == [] then now else Later(now, others[..|others| - 1]) + others[|others| - 1].wait
  }

  /** The cache after the others. */
  function Meanwhile(cache: map<Hash, Entry>, now: nat, ttl: nat, others: seq<Other>): map<Hash, Entry> {
    if others == [] then cache else
      var o := others[|others| - 1];
      Put(Meanwhile(cache, now, ttl, others[..|others| - 1]), o.hash, o.t, Later(now, others) + ttl)
  }

  class Authenticator {
    const ttl: nat
    var cache: map<Hash, Entry>
    var now: nat

    constructor (ttl: int)
      ensures this.ttl == (if ttl <= 0 then 30_000_000_000 else ttl) > 0 && cache == map[] && now == 0
    {
      this.ttl := if ttl <= 0 then DEFAULT_TTL else ttl;
      cache, now := map[], 0;
    }

    /** The section of another resolve that stores. */
    method Store(hash: Hash, t: Tenant)
      modifies this`cache
      ensures cache == Put(old(cache), hash, t, now + ttl)
    {
      cache := cache[hash := Entry(t, now + ttl)];
    }

    /** The cached tenant if there is a live entry; otherwise what the lookup says, and if that is a tenant
        it is stored, over whatever the others stored while the lookup ran without the lock. */
    method Resolve(hash: Hash, lookup: Resolved, others: seq<Other>) returns (r: Resolved)
      modifies this`cache, this`now
      ensures Hit(old(cache), hash, old(now)) ==>
        r == Found(old(cache)[hash].t) && cache == old(cache) && now == old(now)
      ensures !Hit(old(cache), hash, old(now)) ==>
        var between := Meanwhile(old(cache), old(now), ttl, others);
        && r == lookup && now == Later(old(now), others)
        && cache == if lookup.Found? then Put(between, hash, lookup.t, now + ttl) else between
    {
      if hash in cache && now < cache[hash].expires {
        return Found(cache[hash].t);
      }
      for i := 0 to |others|
        invariant now == Later(old(now), others[..i])
        invariant cache == Meanwhile(old(cache), old(now), ttl, others[..i])
      {
        assert others[..i + 1][..i] == others[..i];
        now := now + others[i].wait;
        Store(others[i].hash, others[i].t);
      }
      assert others[..|others|] == others;
      if lookup.Found? {
        Store(hash, lookup.t);
      }
      r := lookup;
    }
  }
}
