/** internal/budget/budget.go: the counters in Redis, the reserve script with its double arithmetic, and
    the client that runs it. */
module Budget {
  import opened Sums
  import opened Json
  import opened Month

  const TTL := 62 * DAY

  const TWO53: int := 0x20_0000_0000_0000

  // --- Lua numbers: integers rounded to binary64, half to even ---

  /** Drops low bits of n >= 2^53 until 54 are left, remembering whether one of those dropped was set, and
      rounds away the last of the 54; the result has the size of n again. */
  function RoundBits(n: nat, sticky: bool): nat {
    if n < 2 * TWO53 then
      var q := n / 2;
      2 * if n % 2 == 0 then q else if sticky then q + 1 else q + q % 2
    else
      2 * RoundBits(n / 2, sticky || n % 2 == 1)
  }

  function RoundNat(n: nat): nat {
    if n <= TWO53 then n else RoundBits(n, false)
  }

  function Double(x: int): int {
    if x < 0 then -(RoundNat(-x) as int) else RoundNat(x)
  }

  lemma {:induction false} RoundBitsLarge(n: nat, sticky: bool)
    requires n >= TWO53
    ensures RoundBits(n, sticky) >= TWO53
  {
    if n >= 2 * TWO53 {
      RoundBitsLarge(n / 2, sticky || n % 2 == 1);
    }
  }

  /** Integers up to 2^53 are doubles. */
  lemma DoubleExact(x: int)
    requires -TWO53 <= x <= TWO53
    ensures Double(x) == x
  {
  }

  /** Rounding does not cross 2^53, in either direction. */
  lemma DoubleSide(x: int)
    ensures x >= TWO53 ==> Double(x) >= TWO53
    ensures x <= -TWO53 ==> Double(x) <= -TWO53
  {
    if x > TWO53 {
      RoundBitsLarge(x, false);
    } else if x < -TWO53 {
      RoundBitsLarge(-x, false);
    }
  }

  /** Rounding is monotone and its results are fixed by it, as those of binary64 are. */
  lemma {:induction false} RoundBitsMonotone(m: nat, s: bool, n: nat, t: bool)
    requires TWO53 <= m && (m < n || (m == n && (s ==> t)))
    ensures RoundBits(m, s) <= RoundBits(n, t)
  {
    if m >= 2 * TWO53 {
      RoundBitsMonotone(m / 2, s || m % 2 == 1, n / 2, t || n % 2 == 1);
    } else if n >= 2 * TWO53 {
      RoundBitsLarge(n / 2, t || n % 2 == 1);
    }
  }

  lemma DoubleMonotone(x: int, y: int)
    requires x <= y
    ensures Double(x) <= Double(y)
  {
    hide RoundBits;
    DoubleSide(x);
    DoubleSide(y);
    if TWO53 < x {
      RoundBitsMonotone(x, false, y, false);
    } else if y < -TWO53 {
      RoundBitsMonotone(-y, false, -x, false);
    }
  }

  /** The distance of neighbouring doubles from n on. */
  function Ulp(n: nat): nat {
    if n < TWO53 then 1 else 2 * Ulp(n / 2)
  }

  /** m times the distance, no farther from n than half of it, or from a number between n and n + 1 if a bit was
      lost; and even if two are equally near. */
  predicate Nearest(r: int, n: nat, sticky: bool, m: nat, half: nat) {
    && r == m * (2 * half)
    && n - half + (if sticky then 1 else 0) <= r <= n + half
    && (!sticky && (r == n - half || r == n + half) ==> m % 2 == 0)
  }

  lemma NearestBase(n: nat, sticky: bool)
    requires TWO53 <= n < 2 * TWO53
    ensures Ulp(n) == 2 && Nearest(RoundBits(n, sticky), n, sticky, RoundBits(n, sticky) / 2, 1)
  {
    assert Ulp(n / 2) == 1;
    var q := n / 2;
    assert (q + q % 2) % 2 == 0;
  }

  lemma NearestTwice(r: int, n: nat, sticky: bool, m: nat, half: nat)
    requires half > 0 && Nearest(r, n / 2, sticky || n % 2 == 1, m, half)
    ensures Nearest(2 * r, n, sticky, m, 2 * half)
  {
    assert 2 * (m * (2 * half)) == m * (2 * (2 * half));
  }

  /** RoundBits rounds to nearest, half to even, for numbers of any size. */
  lemma {:induction false} RoundBitsNearest(n: nat, sticky: bool) returns (m: nat, half: nat)
    requires n >= TWO53
    ensures half > 0 && Ulp(n) == 2 * half && Nearest(RoundBits(n, sticky), n, sticky, m, half)
  {
    if n < 2 * TWO53 {
      NearestBase(n, sticky);
      m, half := RoundBits(n, sticky) / 2, 1;
    } else {
      hide Nearest;
      m, half := RoundBitsNearest(n / 2, sticky || n % 2 == 1);
      NearestTwice(RoundBits(n / 2, sticky || n % 2 == 1), n, sticky, m, half);
      half := 2 * half;
    }
  }

  /** Double rounds to the nearest double, half to even, on both sides of zero. */
  lemma DoubleNearest(x: int) returns (m: nat)
    ensures var n, r := if x < 0 then -x else x, if x < 0 then -Double(x) else Double(x);
      && r == m * Ulp(n) && 2 * (r - n) <= Ulp(n) && 2 * (n - r) <= Ulp(n)
      && (2 * (r - n) == Ulp(n) || 2 * (n - r) == Ulp(n) ==> m % 2 == 0)
  {
    var n: nat := if x < 0 then -x else x;
    if n < TWO53 {
      m := n;
    } else {
      RoundNatBits(n);
      var half;
      m, half := RoundBitsNearest(n, false);
    }
  }

  lemma RoundNatBits(n: nat)
    requires n >= TWO53
    ensures RoundNat(n) == RoundBits(n, false)
  {
  }

  /** The script's test cur + est > limit, on the doubles that tonumber makes of its three inputs. */
  predicate Exceeds(cur: int, est: int, limit: int) {
    Double(Double(cur) + Double(est)) > Double(limit)
  }

  /** The test decides as exact integers do, whatever the counter. */
  lemma ScriptExact(cur: int, est: int, limit: int)
    requires 0 <= est && (est <= TWO53 || cur >= 0)
    requires 0 <= limit < TWO53
    ensures Exceeds(cur, est, limit) <==> cur + est > limit
  {
    hide Double;
    DoubleExact(limit);
    DoubleSide(cur);
    DoubleSide(est);
    DoubleSide(Double(cur) + Double(est));
    if -TWO53 <= cur <= TWO53 {
      DoubleExact(cur);
    }
    if est <= TWO53 {
      DoubleExact(est);
    }
    if -TWO53 <= Double(cur) + Double(est) <= TWO53 {
      DoubleExact(Double(cur) + Double(est));
    }
  }

  /** With the limit 2^53 itself it does not: one sum too high by one is let through, and only that one. */
  lemma ScriptExactUpTo(cur: int, est: int, limit: int)
    requires 0 <= cur <= TWO53 && 0 <= est <= TWO53 && 0 <= limit <= TWO53
    ensures (Exceeds(cur, est, limit) <==> cur + est > limit) <==> !(limit == TWO53 && cur + est == TWO53 + 1)
  {
    if limit < TWO53 {
      ScriptExact(cur, est, limit);
    } else {
      DoubleExact(cur);
      DoubleExact(est);
      DoubleExact(limit);
      var s := cur + est;
      if s <= TWO53 {
        DoubleExact(s);
      } else {
        assert Double(s) > TWO53 <==> s > TWO53 + 1 by { RoundAbove(s); }
      }
    }
  }

  lemma RoundAbove(s: nat)
    requires TWO53 < s <= 2 * TWO53
    ensures RoundNat(s) > TWO53 <==> s > TWO53 + 1
  {
    if s == 2 * TWO53 {
      assert RoundBits(TWO53, false) == TWO53;
    }
  }

  // --- The store ---

  datatype Cell = Cell(value: int, expires: Option<nat>)

  /** The live keys and Redis's clock, in seconds. */
  datatype Store = Store(cells: map<string, Cell>, now: nat)

  function Counter(st: Store, key: string): int {
    if key in st.cells then st.cells[key].value else 0
  }

  function Expiry(st: Store, key: string): Option<nat> {
    if key in st.cells then st.cells[key].expires else None
  }

  predicate ScriptAllows(st: Store, key: string, limit: int, est: int) {
    !Exceeds(Counter(st, key), est, limit) && InInt64(Counter(st, key) + est)
  }

  /** The store after the reserve script: the time to live is set once and never refreshed. */
  function AfterReserve(st: Store, key: string, limit: int, est: int): Store {
    if ScriptAllows(st, key, limit, est) then
      var until := if Expiry(st, key).Some? then Expiry(st, key) else Some(st.now + TTL);
      st.(cells := st.cells[key := Cell(Counter(st, key) + est, until)])
    else st
  }

  /** Whether an increment is applied at all: a zero delta sends nothing, an overflow is refused. */
  predicate Applies(st: Store, key: string, delta: int) {
    delta != 0 && InInt64(Counter(st, key) + delta)
  }

  /** The store after a reconcile: an absent key is created, without a time to live. */
  function AfterReconcile(st: Store, key: string, delta: int): Store {
    if Applies(st, key, delta) then
      st.(cells := st.cells[key := Cell(Counter(st, key) + delta, Expiry(st, key))])
    else st
  }

  /** Time passes, and keys whose time has come are gone. */
  function Elapse(st: Store, seconds: nat): Store {
    var now := st.now + seconds;
    Store(map k | k in st.cells && (st.cells[k].expires.None? || now < st.cells[k].expires.value) :: st.cells[k], now)
  }

  /** An allowed reservation brings the counter to at most the limit, so INCRBY cannot overflow. */
  lemma AllowedWithinLimit(st: Store, key: string, limit: int, est: int)
    requires 0 <= est && 0 <= limit < TWO53 && (est <= TWO53 || Counter(st, key) >= 0)
    requires InInt64(Counter(st, key))
    ensures ScriptAllows(st, key, limit, est) <==> Counter(st, key) + est <= limit
    ensures !Exceeds(Counter(st, key), est, limit) ==> InInt64(Counter(st, key) + est)
    ensures Counter(AfterReserve(st, key, limit, est), key)
         == Counter(st, key) + if Counter(st, key) + est <= limit then est else 0
  {
    hide Exceeds;
    ScriptExact(Counter(st, key), est, limit);
  }

  /** A time to live is never refreshed: while it runs, no reserve and no reconcile moves the expiry; and
      a reserve leaves no key without one. */
  lemma ExpirySetOnce(st: Store, key: string, other: string, limit: int, est: int, delta: int)
    ensures Expiry(st, key).Some? ==>
      && Expiry(AfterReserve(st, other, limit, est), key) == Expiry(st, key)
      && Expiry(AfterReconcile(st, other, delta), key) == Expiry(st, key)
    ensures ScriptAllows(st, key, limit, est) ==>
      var until := Expiry(AfterReserve(st, key, limit, est), key);
      until == if Expiry(st, key).Some? then Expiry(st, key) else Some(st.now + TTL)
  {
    hide ScriptAllows, Applies;
  }

  // --- The client ---

  /** The fate of one command: carried out and answered, carried out with the answer lost, or not
      carried out. */
  datatype Link = Up | AnswerLost | Down

  class Redis {
    var st: Store

    constructor ()
      ensures st == Store(map[], 0)
    {
      st := Store(map[], 0);
    }

    method Get(key: string) returns (value: Option<int>)
      ensures value == if key in st.cells then Some(st.cells[key].value) else None
    {
      value := if key in st.cells then Some(st.cells[key].value) else None;
    }

    /** INCRBY: refuses to overflow, keeps the time to live. */
    method IncrBy(key: string, delta: int) returns (r: Option<int>)
      modifies this
      ensures var v := old(Counter(st, key)) + delta;
        && (r.Some? <==> InInt64(v)) && (r.Some? ==> r.value == v)
        && st == if InInt64(v) then old(st).(cells := old(st).cells[key := Cell(v, old(Expiry(st, key)))]) else old(st)
    {
      var v := Counter(st, key) + delta;
      if !InInt64(v) {
        return None;
      }
      st := st.(cells := st.cells[key := Cell(v, Expiry(st, key))]);
      r := Some(v);
    }

    /** TTL: negative if the key is absent or persistent. */
    method TimeToLive(key: string) returns (seconds: int)
      ensures seconds < 0 <==> Expiry(st, key).None? || Expiry(st, key).value < st.now
    {
      seconds := if Expiry(st, key).None? then -1 else Expiry(st, key).value - st.now;
    }

    method Expire(key: string, seconds: nat)
      modifies this
      ensures st == if key in old(st).cells
        then old(st).(cells := old(st).cells[key := Cell(old(st).cells[key].value, Some(old(st).now + seconds))])
        else old(st)
    {
      if key in st.cells {
        st := st.(cells := st.cells[key := Cell(st.cells[key].value, Some(st.now + seconds))]);
      }
    }

    method Wait(seconds: nat)
      modifies this
      ensures st == Elapse(old(st), seconds)
    {
      st := Elapse(st, seconds);
    }
  }

  /** Every key that is there still has time to live, or none is set. */
  predicate Live(st: Store) {
    forall k :: k in st.cells ==> st.cells[k].expires.Some? ==> st.now < st.cells[k].expires.value
  }

  datatype Reply = Allowed(spend: int) | Denied(spend: int) | Failed

  class Client {
    const rdb: Redis

    constructor (rdb: Redis)
      ensures this.rdb == rdb
    {
      this.rdb := rdb;
    }

    /** The reserve script, command by command. */
    method Script(key: string, limit: int, est: int) returns (r: Reply)
      requires Live(rdb.st)
      modifies rdb
      ensures rdb.st == AfterReserve(old(rdb.st), key, limit, est)
      ensures r.Allowed? <==> ScriptAllows(old(rdb.st), key, limit, est)
      ensures r.Allowed? ==> r.spend == Counter(rdb.st, key)
      ensures r.Denied? <==> Exceeds(old(Counter(rdb.st, key)), est, limit)
      ensures r.Denied? ==> r.spend == Double(old(Counter(rdb.st, key)))
    {
      hide Exceeds, Double;
      var v := rdb.Get(key);
      var cur := if v.Some? then v.value else 0;
      if Exceeds(cur, est, limit) {
        return Denied(Double(cur));
      }
      var spend := rdb.IncrBy(key, est);
      if spend.None? {
        return Failed; // the script stops on the error, having written nothing
      }
      var left := rdb.TimeToLive(key);
      if left < 0 {
        rdb.Expire(key, TTL);
      }
      r := Allowed(spend.value);
    }

    method Reserve(key: string, limit: int, est: int, link: Link) returns (r: Reply)
      requires Live(rdb.st)
      modifies rdb
      ensures rdb.st == if link.Down? then old(rdb.st) else AfterReserve(old(rdb.st), key, limit, est)
      ensures link.Up? ==> (r.Allowed? <==> ScriptAllows(old(rdb.st), key, limit, est))
      ensures r.Allowed? ==> link.Up? && r.spend == Counter(rdb.st, key)
      ensures link.Up? ==> (r.Denied? <==> Exceeds(old(Counter(rdb.st, key)), est, limit))
      ensures r.Denied? ==> link.Up? && r.spend == Double(old(Counter(rdb.st, key)))
      ensures !link.Up? ==> r.Failed?
    {
      hide Exceeds, Double;
      if link.Down? {
        return Failed;
      }
      r := Script(key, limit, est);
      if link.AnswerLost? {
        r := Failed;
      }
    }

    method Reconcile(key: string, delta: int, link: Link) returns (ok: bool)
      modifies rdb
      ensures rdb.st == if link.Down? then old(rdb.st) else AfterReconcile(old(rdb.st), key, delta)
      ensures ok ==> delta == 0 || (link.Up? && Applies(old(rdb.st), key, delta))
    {
      if delta == 0 {
        return true;
      }
      if link.Down? {
        return false;
      }
      var v := rdb.IncrBy(key, delta);
      ok := v.Some? && link.Up?;
    }
  }
}
