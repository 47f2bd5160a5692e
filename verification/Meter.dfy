/** internal/meter/meter.go: the bounded queue of metering events and the writer that batches them. */
module Meter {
  datatype Event = Event(
    tenant: int, feature: string, provider: string, model: string, input: int, output: int,
    cost: real, estimated: bool, status: int)

  const BUFFER := 4096
  const BATCH := 100

  // --- The writer as a state machine over all interleavings ---

  /** Where Run stands. Flushing is a place of its own: a sink write takes time, and events keep arriving. */
  datatype Place = Select | FlushToSelect | Drain | FlushToDrain | LastFlush | Done

  /** `accepted` is every event for which Enqueue said true, `handed` every batch given to the sink. */
  datatype State = State(
    ch: seq<Event>, batch: seq<Event>, handed: seq<seq<Event>>, accepted: seq<Event>, at: Place)

  datatype Action =
    | Enqueue(e: Event) // by any request, at any time
    | Receive           // the case or the drain loop takes an event off the channel
    | Tick              // the ticker case
    | Cancel            // the Done case: draining begins
    | Empty             // the drain loop finds the channel empty
    | Flush             // the sink write that is due

  const INIT := State([], [], [], [], Select)

  /** One action; what cannot happen in a state leaves it as it is. */
  function Step(s: State, size: nat, a: Action): State {
    match a
    case Enqueue(e) =>
      if |s.ch| < BUFFER then s.(ch := s.ch + [e], accepted := s.accepted + [e]) else s
    case Receive =>
      if s.ch == [] || !(s.at.Select? || s.at.Drain?) then s else
        var batch := s.batch + [s.ch[0]];
        s.(ch := s.ch[1..], batch := batch,
           at := if |batch| < size then s.at else if s.at.Select? then FlushToSelect else FlushToDrain)
    case Tick => if s.at.Select? then s.(at := FlushToSelect) else s
    case Cancel => if s.at.Select? then s.(at := Drain) else s
    case Empty => if s.at.Drain? && s.ch == [] then s.(at := LastFlush) else s
    case Flush =>
      if !(s.at.FlushToSelect? || s.at.FlushToDrain? || s.at.LastFlush?) then s else
        var at := if s.at.FlushToSelect? then Select else if s.at.FlushToDrain? then Drain else Done;
        if s.batch == [] then s.(at := at)
        else s.(handed := s.handed + [s.batch], batch := [], at := at)
  }

  function After(size: nat, actions: seq<Action>): State {
    if actions == [] then INIT
    else Step(After(size, actions[..|actions| - 1]), size, actions[|actions| - 1])
  }

  function Flat(batches: seq<seq<Event>>): seq<Event> {
    if batches == [] then [] else Flat(batches[..|batches| - 1]) + batches[|batches| - 1]
  }

  lemma FlatSnoc(batches: seq<seq<Event>>, b: seq<Event>)
    ensures Flat(batches + [b]) == Flat(batches) + b
  {
    assert (batches + [b])[..|batches|] == batches;
  }

  /** What holds in every state of every run. */
  ghost predicate Sound(s: State, size: nat) {
    && size > 0
    && s.accepted == Flat(s.handed) + s.batch + s.ch
    && |s.ch| <= BUFFER
    && |s.batch| <= size
    && (s.at.Select? || s.at.Drain? ==> |s.batch| < size)
    && (s.at.LastFlush? ==> |s.batch| < size)
    && (s.at.FlushToDrain? ==> |s.batch| == size)
    && (s.at.Done? ==> s.batch == [])
    && (forall i :: 0 <= i < |s.handed| ==> 1 <= |s.handed[i]| <= size)
  }

  lemma SoundReceive(s: State, size: nat)
    requires Sound(s, size)
    ensures Sound(Step(s, size, Receive), size)
  {
    if s.ch != [] && (s.at.Select? || s.at.Drain?) {
      assert s.ch == [s.ch[0]] + s.ch[1..];
      assert Flat(s.handed) + (s.batch + [s.ch[0]]) + s.ch[1..] == Flat(s.handed) + s.batch + s.ch;
    }
  }

  lemma SoundFlush(s: State, size: nat)
    requires Sound(s, size)
    ensures Sound(Step(s, size, Flush), size)
  {
    if s.batch != [] {
      FlatSnoc(s.handed, s.batch);
      assert Flat(s.handed + [s.batch]) + [] + s.ch == Flat(s.handed) + s.batch + s.ch;
    }
  }

  lemma SoundEnqueue(s: State, size: nat, e: Event)
    requires Sound(s, size)
    ensures Sound(Step(s, size, Enqueue(e)), size)
  {
    assert Flat(s.handed) + s.batch + (s.ch + [e]) == Flat(s.handed) + s.batch + s.ch + [e];
  }

  lemma SoundStep(s: State, size: nat, a: Action)
    requires Sound(s, size)
    ensures Sound(Step(s, size, a), size)
  {
    hide Flat;
    match a
    case Enqueue(e) => SoundEnqueue(s, size, e);
    case Receive => SoundReceive(s, size);
    case Flush => SoundFlush(s, size);
    case _ =>
  }

  /** The events that a crash in this state loses: accepted, and not handed to the sink. */
  function Lost(s: State): int {
    |s.accepted| - |Flat(s.handed)|
  }

  /** FIFO, exactly once: in every interleaving the batches handed to the sink, then the pending batch, then
      the channel, are the accepted events in order. Batches hold 1 to `size` events, and no more than the
      channel and one batch are ever waiting. */
  lemma {:induction false} FifoExactlyOnce(size: nat, actions: seq<Action>)
    requires size > 0
    ensures var s := After(size, actions);
      && s.accepted == Flat(s.handed) + s.batch + s.ch
      && (forall i :: 0 <= i < |s.handed| ==> 1 <= |s.handed[i]| <= size)
      && Lost(s) <= BUFFER + size
    ensures Sound(After(size, actions), size)
  {
    hide Flat, Step;
    if actions == [] {
      assert Sound(INIT, size) by { InitSound(size); }
    } else {
      FifoExactlyOnce(size, actions[..|actions| - 1]);
      SoundStep(After(size, actions[..|actions| - 1]), size, actions[|actions| - 1]);
    }
  }

  lemma InitSound(size: nat)
    requires size > 0
    ensures Sound(INIT, size)
  {
  }

  /** The bound on waiting events is reached, so a crash can lose a full channel besides the batch. */
  lemma LossBoundReached(size: nat, e: Event) returns (actions: seq<Action>)
    requires size > 0
    ensures Lost(After(size, actions)) == BUFFER + size
  {
    actions := Pairs(e, size) + Fill(e, BUFFER);
    Filled(size, e, BUFFER);
  }

  /** A crash loses at most one batch exactly while the channel holds no more than the pending batch still
      lacks; the least bound for all runs is one batch and a full channel. */
  lemma LossBoundIff(size: nat, actions: seq<Action>, bound: nat)
    requires size > 0
    ensures var s := After(size, actions);
      Lost(s) <= size <==> |s.ch| <= size - |s.batch|
    ensures (forall run :: Lost(After(size, run)) <= bound) <==> BUFFER + size <= bound
  {
    hide After, Flat, Sound;
    FifoExactlyOnce(size, actions);
    if BUFFER + size <= bound {
      forall run ensures Lost(After(size, run)) <= bound {
        FifoExactlyOnce(size, run);
      }
    } else {
      var run := LossBoundReached(size, Event(0, "", "", "", 0, 0, 0.0, false, 0));
      assert Lost(After(size, run)) > bound;
    }
  }

  /** n events, each received as soon as it is there. */
  function Pairs(e: Event, n: nat): seq<Action> {
    if n == 0 then [] else Pairs(e, n - 1) + [Enqueue(e)] + [Receive]
  }

  function Fill(e: Event, n: nat): seq<Action> {
    if n == 0 then [] else Fill(e, n - 1) + [Enqueue(e)]
  }

  lemma AfterSnoc(size: nat, actions: seq<Action>, a: Action)
    ensures After(size, actions + [a]) == Step(After(size, actions), size, a)
  {
    hide Step;
    assert (actions + [a])[..|actions|] == actions;
  }

  lemma {:induction false} Paired(size: nat, e: Event, n: nat)
    requires n <= size && size > 0
    ensures var s := After(size, Pairs(e, n));
      && s.ch == [] && |s.batch| == n && s.handed == [] && |s.accepted| == n
      && s.at == if n < size then Select else FlushToSelect
  {
    hide After;
    if n == 0 {
      assert After(size, []) == INIT by { AfterNothing(size); }
    } else {
      Paired(size, e, n - 1);
      AfterSnoc(size, Pairs(e, n - 1), Enqueue(e));
      AfterSnoc(size, Pairs(e, n - 1) + [Enqueue(e)], Receive);
    }
  }

  lemma AfterNothing(size: nat)
    ensures After(size, []) == INIT
  {
  }

  lemma {:induction false} Filled(size: nat, e: Event, n: nat)
    requires n <= BUFFER && size > 0
    ensures var s := After(size, Pairs(e, size) + Fill(e, n));
      |s.ch| == n && s.handed == [] && |s.accepted| == size + n
  {
    hide After;
    if n == 0 {
      Paired(size, e, size);
      assert Pairs(e, size) + [] == Pairs(e, size);
    } else {
      Filled(size, e, n - 1);
      AfterSnoc(size, Pairs(e, size) + Fill(e, n - 1), Enqueue(e));
      assert Pairs(e, size) + Fill(e, n) == Pairs(e, size) + Fill(e, n - 1) + [Enqueue(e)];
    }
  }

  /** The drain loop has found the channel empty. */
  predicate Closed(s: State) {
    s.at.LastFlush? || s.at.Done?
  }

  /** How many events had been accepted when the drain loop found the channel empty. */
  function AcceptedAtClose(size: nat, actions: seq<Action>): nat {
    if actions == [] then 0
    else if Closed(After(size, actions[..|actions| - 1])) then AcceptedAtClose(size, actions[..|actions| - 1])
    else |After(size, actions).accepted|
  }

  /** Once closed, the channel holds exactly what was accepted since. */
  lemma {:induction false} LateEvents(size: nat, actions: seq<Action>)
    requires size > 0 && Closed(After(size, actions))
    ensures var s, n := After(size, actions), AcceptedAtClose(size, actions);
      n <= |s.accepted| && s.ch == s.accepted[n..]
  {
    var before, a := actions[..|actions| - 1], actions[|actions| - 1];
    if Closed(After(size, before)) {
      LateEvents(size, before);
    } else {
      assert a.Empty?;
    }
  }

  /** When Wait returns, every accepted event has been handed to the sink, if and only if none was accepted
      after the drain loop had found the channel empty; what was is lost. */
  lemma ShutdownDrains(size: nat, actions: seq<Action>)
    requires size > 0 && After(size, actions).at.Done?
    ensures var s, n := After(size, actions), AcceptedAtClose(size, actions);
      && n <= |s.accepted| && Flat(s.handed) == s.accepted[..n]
      && (Flat(s.handed) == s.accepted <==> n == |s.accepted|)
  {
    hide After, Flat, AcceptedAtClose;
    FifoExactlyOnce(size, actions);
    LateEvents(size, actions);
    var s := After(size, actions);
    assert s.accepted == Flat(s.handed) + s.ch;
  }

  // --- Run, case by case ---

  /** What Run's select statement meets, in order. */
  datatype Case = Received | Ticked | Cancelled

  /** Events that are submitted one after the other. */
  function Arrive(s: State, size: nat, es: seq<Event>): (s': State)
    ensures s'.at == s.at && s'.batch == s.batch && s'.handed == s.handed
    ensures es == [] ==> s' == s
  {
    if es == [] then s else Step(Arrive(s, size, es[..|es| - 1]), size, Enqueue(es[|es| - 1]))
  }

  /** One case: events arrive before it, and behind a receive before its flush. */
  function Round(s: State, size: nat, c: Case, first: seq<Event>, second: seq<Event>): State {
    var s1 := Arrive(s, size, first);
    match c
    case Received =>
      if s1.ch == [] then s1 else
        var s2 := Arrive(Step(s1, size, Receive), size, second);
        if s2.at.FlushToSelect? then Step(s2, size, Flush) else s2
    case Ticked => Step(Step(s1, size, Tick), size, Flush)
    case Cancelled => Step(s1, size, Cancel)
  }

  /** The state after these cases. */
  function Rounds(size: nat, cases: seq<Case>, arriving: nat -> seq<Event>): State {
    if cases == [] then INIT else
      var n := |cases| - 1;
      Round(Rounds(size, cases[..n], arriving), size, cases[n], arriving(2 * n), arriving(2 * n + 1))
  }

  /** The state when the drain and the last flush are over. */
  function Drained(s: State, size: nat, arriving: nat -> seq<Event>, quiet: nat, k: nat): State
    requires s.at.Drain? && forall j :: j >= quiet ==> arriving(j) == []
    decreases if k < quiet then quiet - k else 0, |s.ch|
  {
    if s.ch == [] then
      Step(Arrive(Step(s, size, Empty), size, arriving(k + 1)), size, Flush)
    else
      var s1 := Step(s, size, Receive);
      var s2 := if s1.at.FlushToDrain? then Step(s1, size, Flush) else s1;
      Drained(Arrive(s2, size, arriving(k + 1)), size, arriving, quiet, k + 1)
  }

  /** The cases before the cancellation. */
  function Before(cases: seq<Case>): seq<Case> {
    if cases == [] || cases[0].Cancelled? then [] else [cases[0]] + Before(cases[1..])
  }

  lemma PrefixTail(cases: seq<Case>, i: nat)
    requires 0 < i <= |cases|
    ensures cases[..i] == [cases[0]] + cases[1..][..i - 1]
    ensures cases[0] in cases[..i] && forall c :: c in cases[1..][..i - 1] ==> c in cases[..i]
  {
    assert cases[1..][..i - 1] == cases[1..i];
    assert cases[..i] == [cases[0]] + cases[1..i];
    assert cases[..i][0] == cases[0];
  }

  lemma {:induction false} BeforeIs(cases: seq<Case>, i: nat)
    requires i <= |cases| && Cancelled !in cases[..i] && (i < |cases| ==> cases[i].Cancelled?)
    ensures Before(cases) == cases[..i]
  {
    if i > 0 {
      PrefixTail(cases, i);
      BeforeIs(cases[1..], i - 1);
    }
  }

  /** The end, from the state before the cancellation. */
  function Ending(s: State, size: nat, arriving: nat -> seq<Event>, quiet: nat, k: nat): State
    requires s.at.Select? && forall j :: j >= quiet ==> arriving(j) == []
  {
    Drained(Arrive(Round(s, size, Cancelled, arriving(k), []), size, arriving(k + 1)), size, arriving, quiet, k + 1)
  }

  lemma RoundsSnoc(size: nat, cases: seq<Case>, i: nat, arriving: nat -> seq<Event>)
    requires i < |cases|
    ensures Rounds(size, cases[..i + 1], arriving)
         == Round(Rounds(size, cases[..i], arriving), size, cases[i], arriving(2 * i), arriving(2 * i + 1))
  {
    hide Round;
    assert cases[..i + 1][..i] == cases[..i];
  }

  lemma NoneYet(size: nat, cases: seq<Case>, arriving: nat -> seq<Event>)
    ensures After(size, []) == INIT && Rounds(size, cases[..0], arriving) == INIT
  {
    assert cases[..0] == [];
  }

  lemma DrainStep(s: State, size: nat, arriving: nat -> seq<Event>, quiet: nat, k: nat)
    requires s.at.Drain? && s.ch != [] && forall j :: j >= quiet ==> arriving(j) == []
    ensures var s1 := Step(s, size, Receive);
      var s2 := if s1.at.FlushToDrain? then Step(s1, size, Flush) else s1;
      && s2.at.Drain?
      && Drained(s, size, arriving, quiet, k)
         == Drained(Arrive(s2, size, arriving(k + 1)), size, arriving, quiet, k + 1)
  {
    hide Arrive;
  }

  lemma DrainEnd(s: State, size: nat, arriving: nat -> seq<Event>, quiet: nat, k: nat)
    requires s.at.Drain? && s.ch == [] && forall j :: j >= quiet ==> arriving(j) == []
    ensures Drained(s, size, arriving, quiet, k)
         == Step(Arrive(Step(s, size, Empty), size, arriving(k + 1)), size, Flush)
  {
    hide Step, Arrive;
  }

  /** Whatever has been accepted when the drain begins is handed over when it has ended. */
  lemma {:induction false} DrainedHandsAll(s: State, size: nat, arriving: nat -> seq<Event>, quiet: nat, k: nat)
    requires Sound(s, size) && s.at.Drain? && forall j :: j >= quiet ==> arriving(j) == []
    ensures var s' := Drained(s, size, arriving, quiet, k);
      s'.at.Done? && s'.batch == [] && s.accepted <= Flat(s'.handed)
    decreases if k < quiet then quiet - k else 0, |s.ch|
  {
    if s.ch == [] {
      DrainEnd(s, size, arriving, quiet, k);
      LastHands(s, size, arriving(k + 1));
      hide Step, Arrive, Drained, Sound, Flat;
    } else {
      hide Drained, Sound, Flat;
      DrainStep(s, size, arriving, quiet, k);
      var s3 := DrainOne(s, size, arriving(k + 1));
      assert arriving(k + 1) != [] ==> k < quiet;
      DrainedHandsAll(s3, size, arriving, quiet, k + 1);
    }
  }

  lemma DrainOne(s: State, size: nat, es: seq<Event>) returns (s3: State)
    requires Sound(s, size) && s.at.Drain? && s.ch != []
    ensures var s1 := Step(s, size, Receive);
      var s2 := if s1.at.FlushToDrain? then Step(s1, size, Flush) else s1;
      s3 == Arrive(s2, size, es)
    ensures Sound(s3, size) && s3.at.Drain? && s.accepted <= s3.accepted && (es == [] ==> |s3.ch| == |s.ch| - 1)
  {
    var s1 := Step(s, size, Receive);
    var s2 := if s1.at.FlushToDrain? then Step(s1, size, Flush) else s1;
    SoundStep(s, size, Receive);
    SoundStep(s1, size, Flush);
    SoundArrive(s2, size, es);
    var j := ArriveIs(s2, size, es);
    hide Arrive, Flat;
    s3 := Arrive(s2, size, es);
  }

  lemma LastHands(s: State, size: nat, es: seq<Event>)
    requires Sound(s, size) && s.at.Drain? && s.ch == []
    ensures var s' := Step(Arrive(Step(s, size, Empty), size, es), size, Flush);
      s'.at.Done? && s'.batch == [] && s.accepted == Flat(s'.handed)
  {
    hide Flat;
    FlatSnoc(s.handed, s.batch);
    assert s.accepted == Flat(s.handed) + s.batch;
  }

  /** Events that were taken off the channel. */
  function Taken(s: State): seq<Event> {
    Flat(s.handed) + s.batch
  }

  /** What arrives joins the channel, as far as there is room, and nothing else happens. */
  lemma {:induction false} ArriveIs(s: State, size: nat, es: seq<Event>) returns (k: nat)
    requires |s.ch| <= BUFFER
    ensures k <= |es| && k == (if |s.ch| + |es| <= BUFFER then |es| else BUFFER - |s.ch|)
    ensures Arrive(s, size, es) == s.(ch := s.ch + es[..k], accepted := s.accepted + es[..k])
  {
    k := 0;
    if es == [] {
      assert s.ch + [] == s.ch && s.accepted + [] == s.accepted;
    } else {
      var n := |es| - 1;
      k := ArriveIs(s, size, es[..n]);
      assert es[..n][..k] == es[..k];
      if |s.ch| + n < BUFFER {
        assert es[..n] + [es[n]] == es[..n + 1];
        assert s.ch + es[..n] + [es[n]] == s.ch + es[..n + 1];
        assert s.accepted + es[..n] + [es[n]] == s.accepted + es[..n + 1];
        k := n + 1;
      }
    }
  }

  /** A receive takes exactly the next event, and hands the batch over exactly if it fills it. */
  lemma ReceivedTakes(s: State, size: nat, first: seq<Event>, second: seq<Event>)
    requires Sound(s, size) && s.at.Select? && Arrive(s, size, first).ch != []
    ensures var e, s' := Arrive(s, size, first).ch[0], Round(s, size, Received, first, second);
      && Taken(s') == Taken(s) + [e] && s'.at.Select?
      && (if |s.batch| + 1 < size then s'.handed == s.handed && s'.batch == s.batch + [e]
          else s'.handed == s.handed + [s.batch + [e]] && s'.batch == [])
    ensures Arrive(s, size, first).ch[0] == if s.ch != [] then s.ch[0] else first[0]
  {
    var k := ArriveIs(s, size, first);
    FirstOf(s.ch, first[..k], first);
    hide Flat, Arrive, Round, Taken;
    TakesOne(s, Arrive(s, size, first), size, first, second);
  }

  lemma FirstOf(a: seq<Event>, b: seq<Event>, c: seq<Event>)
    requires b <= c && a + b != []
    ensures (a + b)[0] == if a != [] then a[0] else c[0]
  {
  }

  lemma TakesOne(s: State, s1: State, size: nat, first: seq<Event>, second: seq<Event>)
    requires s1 == Arrive(s, size, first) && s1.at.Select? && s1.ch != []
    ensures var e, s' := s1.ch[0], Round(s, size, Received, first, second);
      && Taken(s') == Taken(s) + [e] && s'.at.Select?
      && (if |s.batch| + 1 < size then s'.handed == s.handed && s'.batch == s.batch + [e]
          else s'.handed == s.handed + [s.batch + [e]] && s'.batch == [])
  {
    hide Flat, Arrive;
    var e := s1.ch[0];
    FlatSnoc(s.handed, s.batch + [e]);
    JoinEvents(Flat(s.handed), s.batch, [e]);
  }

  lemma JoinEvents(a: seq<Event>, b: seq<Event>, c: seq<Event>)
    ensures a + (b + c) == a + b + c && a + b + [] == a + b
  {
  }

  /** A tick hands over what is pending, if anything is, and leaves nothing pending. */
  lemma TickedHands(s: State, size: nat, first: seq<Event>, second: seq<Event>)
    requires s.at.Select?
    ensures var s' := Round(s, size, Ticked, first, second);
      && s'.batch == [] && s'.handed == s.handed + (if s.batch == [] then [] else [s.batch]) && s'.at.Select?
      && s'.ch == Arrive(s, size, first).ch && Taken(s') == Taken(s)
  {
    hide Flat;
    FlatSnoc(s.handed, s.batch);
  }

  /** The receives that find an event. */
  function Found(size: nat, cases: seq<Case>, arriving: nat -> seq<Event>): nat {
    if cases == [] then 0 else
      var n := |cases| - 1;
      Found(size, cases[..n], arriving)
      + if cases[n].Received? && Arrive(Rounds(size, cases[..n], arriving), size, arriving(2 * n)).ch != []
        then 1 else 0
  }

  lemma SoundArrive(s: State, size: nat, es: seq<Event>)
    requires Sound(s, size)
    ensures Sound(Arrive(s, size, es), size)
  {
    if es != [] {
      SoundArrive(s, size, es[..|es| - 1]);
      SoundStep(Arrive(s, size, es[..|es| - 1]), size, Enqueue(es[|es| - 1]));
    }
  }

  lemma SoundRound(s: State, size: nat, c: Case, first: seq<Event>, second: seq<Event>)
    requires Sound(s, size) && s.at.Select?
    ensures Sound(Round(s, size, c, first, second), size)
    ensures !c.Cancelled? ==> Round(s, size, c, first, second).at.Select?
  {
    var s1 := Arrive(s, size, first);
    SoundArrive(s, size, first);
    match c
    case Received =>
      if s1.ch != [] {
        SoundStep(s1, size, Receive);
        SoundArrive(Step(s1, size, Receive), size, second);
        SoundStep(Arrive(Step(s1, size, Receive), size, second), size, Flush);
      }
    case Ticked =>
      SoundStep(s1, size, Tick);
      SoundStep(Step(s1, size, Tick), size, Flush);
    case Cancelled => SoundStep(s1, size, Cancel);
  }

  lemma {:induction false} SoundRounds(size: nat, cases: seq<Case>, arriving: nat -> seq<Event>)
    requires size > 0 && Cancelled !in cases
    ensures Sound(Rounds(size, cases, arriving), size) && Rounds(size, cases, arriving).at.Select?
  {
    hide Sound, Round;
    if cases == [] {
      InitSound(size);
    } else {
      var n := |cases| - 1;
      SoundRounds(size, cases[..n], arriving);
      SoundRound(Rounds(size, cases[..n], arriving), size, cases[n], arriving(2 * n), arriving(2 * n + 1));
    }
  }

  lemma TakenStep(s: State, size: nat, c: Case, first: seq<Event>, second: seq<Event>)
    requires Sound(s, size) && s.at.Select? && !c.Cancelled?
    ensures |Taken(Round(s, size, c, first, second))|
         == |Taken(s)| + if c.Received? && Arrive(s, size, first).ch != [] then 1 else 0
  {
    if c.Ticked? {
      TickedHands(s, size, first, second);
      hide Round, Sound, Arrive, Flat, Taken;
    } else if Arrive(s, size, first).ch != [] {
      ReceivedTakes(s, size, first, second);
      hide Round, Sound, Arrive, Flat, Taken;
    }
  }

  /** Before a cancellation as many events are taken off the channel as receives have found one. */
  lemma {:induction false} TakenCount(size: nat, cases: seq<Case>, arriving: nat -> seq<Event>)
    requires size > 0 && Cancelled !in cases
    ensures |Taken(Rounds(size, cases, arriving))| == Found(size, cases, arriving)
  {
    hide Round, Sound, Arrive;
    if cases != [] {
      var n := |cases| - 1;
      TakenCount(size, cases[..n], arriving);
      SoundRounds(size, cases[..n], arriving);
      assert cases[n] in cases;
      TakenStep(Rounds(size, cases[..n], arriving), size, cases[n], arriving(2 * n), arriving(2 * n + 1));
    }
  }

  // --- The writer object ---

  /** The sink keeps what it was given, not the slice it was given it in. */
  class Sink {
    var batches: seq<seq<Event>>
    var persisted: seq<seq<Event>>

    constructor ()
      ensures batches == [] && persisted == []
    {
      batches, persisted := [], [];
    }

    /** Reads the first n events of the slice; a failed write persists nothing. */
    method Write(slice: array<Event>, n: nat, fails: bool) returns (ok: bool)
      requires n <= slice.Length
      modifies this
      ensures batches == old(batches) + [slice[..n]]
      ensures persisted == if fails then old(persisted) else old(persisted) + [slice[..n]]
      ensures ok <==> !fails
    {
      batches := batches + [slice[..n]];
      if !fails {
        persisted := persisted + [slice[..n]];
      }
      ok := !fails;
    }
  }

  class Writer {
    var ch: seq<Event>
    const size: nat
    const sink: Sink
    const slice: array<Event> // the backing array of the batch, reused for every batch
    var n: nat
    var at: Place
    ghost var accepted: seq<Event>

    constructor (sink: Sink, batchSize: int)
      requires sink.batches == []
      ensures this.sink == sink && size == (if batchSize <= 0 then 100 else batchSize) && fresh(slice)
      ensures Valid() && View() == INIT
    {
      var size := if batchSize <= 0 then BATCH else batchSize;
      this.size := size;
      this.sink := sink;
      slice := new Event[size](_ => Event(0, "", "", "", 0, 0, 0.0, false, 0));
      ch, n, at, accepted := [], 0, Select, [];
    }

    ghost predicate Valid()
      reads this
    {
      size > 0 && slice.Length == size && n <= size && (at.Select? || at.Drain? ==> n < size)
    }

    ghost function View(): State
      requires Valid()
      reads this, slice, sink
    {
      State(ch, slice[..n], sink.batches, accepted, at)
    }

    /** Submits an event without blocking; a full buffer drops it. */
    method Submit(e: Event) returns (ok: bool)
      requires Valid()
      modifies this
      ensures Valid() && View() == Step(old(View()), size, Enqueue(e))
      ensures ok <==> |old(ch)| < 4096
      ensures n == old(n) && at == old(at)
    {
      ok := |ch| < BUFFER;
      if ok {
        ch := ch + [e];
        accepted := accepted + [e];
      }
    }

    /** batch = append(batch, <-ch), in place: there is always room. */
    method TakeOne()
      requires Valid() && ch != [] && (at.Select? || at.Drain?)
      modifies this, slice
      ensures Valid() && View() == Step(old(View()), size, Receive)
      ensures ch == old(ch)[1..]
      ensures at == if n < size then old(at) else if old(at).Select? then FlushToSelect else FlushToDrain
    {
      slice[n] := ch[0];
      ch := ch[1..];
      n := n + 1;
      if n >= size {
        at := if at.Select? then FlushToSelect else FlushToDrain;
      }
      assert slice[..n] == old(slice[..n]) + [old(ch)[0]];
    }

    /** Writes the batch out and truncates it; the error of a failed write is only logged. */
    method FlushBatch(fails: bool)
      requires Valid() && (at.FlushToSelect? || at.FlushToDrain? || at.LastFlush?)
      modifies this, sink
      ensures Valid() && View() == Step(old(View()), size, Flush)
      ensures ch == old(ch)
      ensures sink.persisted == old(sink.persisted) + (if old(n) == 0 || fails then [] else [old(slice[..n])])
      ensures at == if old(at).FlushToSelect? then Select else if old(at).FlushToDrain? then Drain else Done
    {
      if n > 0 {
        var _ := sink.Write(slice, n, fails);
        n := 0;
      }
      at := if at.FlushToSelect? then Select else if at.FlushToDrain? then Drain else Done;
    }

    /** The ticker case is chosen. */
    method StartFlush()
      requires Valid() && at.Select?
      modifies this`at
      ensures Valid() && View() == Step(old(View()), size, Tick) && at == FlushToSelect
    {
      at := FlushToSelect;
    }

    /** The Done case is chosen. */
    method StartDrain()
      requires Valid() && at.Select?
      modifies this`at
      ensures Valid() && View() == Step(old(View()), size, Cancel) && at == Drain
    {
      at := Drain;
    }

    /** The drain loop falls through to its default case. */
    method EndDrain()
      requires Valid() && at.Drain? && ch == []
      modifies this`at
      ensures Valid() && View() == Step(old(View()), size, Empty) && at == LastFlush
    {
      at := LastFlush;
    }

    /** Events that requests submit while Run is not looking. */
    method Arrivals(es: seq<Event>, ghost trace: seq<Action>) returns (ghost trace': seq<Action>)
      requires Valid() && View() == After(size, trace)
      modifies this
      ensures Valid() && View() == After(size, trace') == Arrive(old(View()), size, es)
      ensures n == old(n) && at == old(at)
      ensures es == [] ==> ch == old(ch)
    {
      hide Step, After;
      trace' := trace;
      assert es[..0] == [];
      for i := 0 to |es|
        invariant Valid() && View() == After(size, trace') == Arrive(old(View()), size, es[..i])
        invariant n == old(n) && at == old(at)
      {
        var _ := Submit(es[i]);
        trace' := Trace(trace', Enqueue(es[i]));
        assert es[..i + 1][..i] == es[..i];
      }
      assert es[..|es|] == es;
    }

    /** One case of the select statement other than the cancellation. */
    method Serve(c: Case, first: seq<Event>, second: seq<Event>, fails: bool, ghost before: seq<Action>)
      returns (ghost trace: seq<Action>)
      requires Valid() && at.Select? && !c.Cancelled? && View() == After(size, before)
      modifies this, slice, sink
      ensures Valid() && at.Select? && View() == After(size, trace) == Round(old(View()), size, c, first, second)
    {
      hide Step, Arrive, After;
      trace := Arrivals(first, before);
      match c {
        case Received =>
          if ch != [] {
            TakeOne();
            trace := Trace(trace, Receive);
            trace := Arrivals(second, trace);
            if at.FlushToSelect? {
              FlushBatch(fails);
              trace := Trace(trace, Flush);
            }
          }
        case Ticked =>
          StartFlush();
          trace := Trace(trace, Tick);
          FlushBatch(fails);
          trace := Trace(trace, Flush);
      }
    }

    /** Run, over the cases its select statement chooses and the events that arrive at each of its moments
        (none from the moment `quiet` on), with sink writes failing or not. It does what the cases say, one after
        the other, which is a run of the state machine; and after a cancellation it ends: with the drain, for
        the channel is finite. */
    method Run(cases: seq<Case>, arriving: nat -> seq<Event>, quiet: nat, fails: nat -> bool)
      returns (ghost trace: seq<Action>)
      requires Valid() && View() == INIT
      requires forall k :: k >= quiet ==> arriving(k) == []
      modifies this, slice, sink
      ensures Valid() && View() == After(size, trace)
      ensures Cancelled in cases ==> at.Done?
      ensures Cancelled !in cases ==> View() == Rounds(size, cases, arriving)
      ensures Cancelled in cases ==>
        && Rounds(size, Before(cases), arriving).at.Select?
        && View() == Ending(Rounds(size, Before(cases), arriving), size, arriving, quiet, 2 * |Before(cases)|)
    {
      hide Step, Arrive, After, Rounds, Round, Before, Drained, Ending;
      trace := [];
      NoneYet(size, cases, arriving);
      var k := 0;
      for i := 0 to |cases|
        invariant Valid() && View() == After(size, trace) && at.Select?
        invariant Cancelled !in cases[..i]
        invariant k == 2 * i && View() == Rounds(size, cases[..i], arriving)
      {
        RoundsSnoc(size, cases, i, arriving);
        if cases[i].Cancelled? {
          BeforeIs(cases, i);
          trace := ShutDown(arriving, quiet, fails, k, trace);
          return;
        }
        trace := Serve(cases[i], arriving(k), arriving(k + 1), fails(k), trace);
        k := k + 2;
      }
      assert cases[..|cases|] == cases;
    }

    /** The cancellation case. */
    method ShutDown(arriving: nat -> seq<Event>, quiet: nat, fails: nat -> bool, k: nat, ghost before: seq<Action>)
      returns (ghost trace: seq<Action>)
      requires Valid() && at.Select? && View() == After(size, before)
      requires forall j :: j >= quiet ==> arriving(j) == []
      modifies this, slice, sink
      ensures Valid() && View() == After(size, trace) && at.Done?
      ensures View() == Ending(old(View()), size, arriving, quiet, k)
    {
      hide Step, Arrive, After, Drained;
      trace := Arrivals(arriving(k), before);
      StartDrain();
      trace := Trace(trace, Cancel);
      trace := DrainAndStop(arriving, quiet, fails, k + 1, trace);
    }

    /** The drain loop and the final flush. */
    method DrainAndStop(arriving: nat -> seq<Event>, quiet: nat, fails: nat -> bool, start: nat,
        ghost before: seq<Action>)
      returns (ghost trace: seq<Action>)
      requires Valid() && at.Drain? && View() == After(size, before)
      requires forall k :: k >= quiet ==> arriving(k) == []
      modifies this, slice, sink
      ensures Valid() && View() == After(size, trace) && at.Done?
      ensures View() == Drained(Arrive(old(View()), size, arriving(start)), size, arriving, quiet, start)
    {
      hide Step, After, Arrive, Drained;
      trace := before;
      var k := start;
      trace := Arrivals(arriving(k), trace);
      ghost var final := Drained(View(), size, arriving, quiet, k);
      while ch != []
        invariant Valid() && at.Drain? && View() == After(size, trace)
        invariant k >= start && final == Drained(View(), size, arriving, quiet, k)
        decreases if k < quiet then quiet - k else 0, |ch|
      {
        DrainStep(View(), size, arriving, quiet, k);
        TakeOne();
        trace := Trace(trace, Receive);
        if at.FlushToDrain? {
          FlushBatch(fails(k));
          trace := Trace(trace, Flush);
        }
        k := k + 1;
        trace := Arrivals(arriving(k), trace);
      }
      DrainEnd(View(), size, arriving, quiet, k);
      EndDrain();
      trace := Trace(trace, Empty);
      k := k + 1;
      trace := Arrivals(arriving(k), trace);
      FlushBatch(fails(k));
      trace := Trace(trace, Flush);
    }

    /** One more action on the trace of a run. */
    ghost function Trace(trace: seq<Action>, a: Action): (trace': seq<Action>)
      ensures After(size, trace') == Step(After(size, trace), size, a)
    {
      assert (trace + [a])[..|trace|] == trace;
      trace + [a]
    }
  }
}
