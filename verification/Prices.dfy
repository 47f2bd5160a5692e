/** internal/prices/cost.go, and the micro-USD conversion of internal/proxy/proxy.go. */
module Prices {

  /** A price row: USD per million tokens. */
  datatype Price = Price(provider: string, model: string, input: real, output: real)

  datatype Key = Key(provider: string, model: string)

  type Table = map<Key, Price>

  function RowKey(p: Price): Key {
    Key(p.provider, p.model)
  }

  /** Row i is the last one of the list with its key. */
  ghost predicate LastRow(list: seq<Price>, i: nat) {
    i < |list| && forall j :: i < j < |list| ==> RowKey(list[j]) != RowKey(list[i])
  }

  /** The table a price list stands for. */
  function TableOf(list: seq<Price>): Table {
    if list == [] then map[]
    else TableOf(list[..|list| - 1])[RowKey(list[|list| - 1]) := list[|list| - 1]]
  }

  /** The last row with a key is the one the table holds. */
  lemma {:induction false} LastRowWins(list: seq<Price>, i: nat)
    requires LastRow(list, i)
    ensures RowKey(list[i]) in TableOf(list) && TableOf(list)[RowKey(list[i])] == list[i]
  {
    if i < |list| - 1 {
      LastRowWins(list[..|list| - 1], i);
      assert RowKey(list[|list| - 1]) != RowKey(list[i]);
    }
  }

  /** The table holds nothing that is not in the list. */
  lemma {:induction false} OnlyListedRows(list: seq<Price>, k: Key) returns (i: nat)
    requires k in TableOf(list)
    ensures LastRow(list, i) && RowKey(list[i]) == k && TableOf(list)[k] == list[i]
  {
    var n := |list| - 1;
    if RowKey(list[n]) == k {
      i := n;
    } else {
      i := OnlyListedRows(list[..n], k);
    }
  }

  /** Indexes a price list; of several rows with one key the last one wins. */
  method BuildTable(list: seq<Price>) returns (t: Table)
    ensures t == TableOf(list)
  {
    t := map[];
    for n := 0 to |list|
      invariant t == TableOf(list[..n])
    {
      t := t[RowKey(list[n]) := list[n]];
      assert list[..n + 1][..n] == list[..n];
    }
    assert list[..|list|] == list;
  }

  /** The USD cost of tokens at a price per million. */
  function Share(tokens: int, price: real): real {
    tokens as real / 1000000.0 * price
  }

  /** The USD cost of a token count and whether a price was found; an unknown model costs 0. */
  function Cost(t: Table, provider: string, model: string, inTokens: int, outTokens: int): (real, bool) {
    if Key(provider, model) in t then
      var p := t[Key(provider, model)];
      (Share(inTokens, p.input) + Share(outTokens, p.output), true)
    else
      (0.0, false)
  }

  /** A million input tokens cost the input price, a million output tokens the output price, more tokens the
      sum of what they cost; an unknown model costs nothing and is reported. */
  lemma CostIs(t: Table, provider: string, model: string, in1: int, out1: int, in2: int, out2: int)
    ensures var k := Key(provider, model);
      if k in t then
        && Cost(t, provider, model, 1000000, 0) == (t[k].input, true)
        && Cost(t, provider, model, 0, 1000000) == (t[k].output, true)
        && Cost(t, provider, model, in1 + in2, out1 + out2)
           == (Cost(t, provider, model, in1, out1).0 + Cost(t, provider, model, in2, out2).0, true)
      else Cost(t, provider, model, in1, out1) == (0.0, false)
  {
    hide Share;
    var k := Key(provider, model);
    if k in t {
      CostOfKnown(t, provider, model, 1000000, 0);
      CostOfKnown(t, provider, model, 0, 1000000);
      CostOfKnown(t, provider, model, in1, out1);
      CostOfKnown(t, provider, model, in2, out2);
      CostOfKnown(t, provider, model, in1 + in2, out1 + out2);
      Whole(t[k].input);
      Whole(t[k].output);
      Distribute(in1, in2, t[k].input);
      Distribute(out1, out2, t[k].output);
    }
  }

  lemma CostOfKnown(t: Table, provider: string, model: string, input: int, output: int)
    requires Key(provider, model) in t
    ensures var p := t[Key(provider, model)];
      Cost(t, provider, model, input, output) == (Share(input, p.input) + Share(output, p.output), true)
  {
  }

  lemma Whole(p: real)
    ensures Share(1000000, p) == p && Share(0, p) == 0.0
  {
    assert 1000000 as real / 1000000.0 == 1.0 && 0 as real / 1000000.0 == 0.0;
  }

  lemma Distribute(a: int, b: int, p: real)
    ensures Share(a + b, p) == Share(a, p) + Share(b, p)
  {
    assert (a + b) as real / 1000000.0 == a as real / 1000000.0 + b as real / 1000000.0;
  }

  /** Rounding half away from zero. */
  function Round(x: real): int {
    if x >= 0.0 then (x + 0.5).Floor else -((-x + 0.5).Floor)
  }

  function ToMicro(usd: real): int {
    Round(usd * 1000000.0)
  }

  /** No integer is nearer to x than Round(x), which is within a half. */
  lemma RoundNearest(x: real)
    ensures -0.5 <= Round(x) as real - x <= 0.5
  {
  }

  /** The nearest integer, and of two the one farther from zero. */
  lemma RoundIff(x: real, n: int)
    ensures Round(x) == n <==>
      if x >= 0.0 then n as real - 0.5 <= x < n as real + 0.5 else n as real - 0.5 < x <= n as real + 0.5
  {
  }

  lemma RoundMonotone(x: real, y: real)
    requires x <= y
    ensures Round(x) <= Round(y)
  {
    if x >= 0.0 || y < 0.0 {
    } else {
      assert (-x + 0.5).Floor >= 0 && (y + 0.5).Floor >= 0;
    }
  }

  /** What the ledger records differs from the exact cost by at most half a micro-USD. */
  lemma MicroNearest(usd: real)
    ensures -0.5 <= ToMicro(usd) as real - usd * 1000000.0 <= 0.5
  {
    RoundNearest(usd * 1000000.0);
  }

  lemma MicroMonotone(x: real, y: real)
    requires x <= y
    ensures ToMicro(x) <= ToMicro(y)
  {
    RoundMonotone(x * 1000000.0, y * 1000000.0);
  }

  ghost predicate NonNegative(t: Table) {
    forall k :: k in t ==> t[k].input >= 0.0 && t[k].output >= 0.0
  }

  /** `cheap` is not priced above `dear`, where an unpriced model counts as free. */
  predicate NotDearer(t: Table, cheap: Key, dear: Key) {
    cheap in t ==> dear in t && t[cheap].input <= t[dear].input && t[cheap].output <= t[dear].output
  }

  lemma ProductLe(a: real, p: real, b: real, q: real)
    requires a <= b && 0.0 <= b && 0.0 <= p <= q
    ensures a * p <= b * q
  {
    assert a * p <= b * p;
    assert b * p <= b * q;
  }

  /** Fewer tokens at prices that are not higher cost no more, also after rounding. */
  lemma CostMonotone(t: Table, provider: string, cheap: string, dear: string, in1: int, out1: int, in2: int, out2: int)
    requires NonNegative(t)
    requires NotDearer(t, Key(provider, cheap), Key(provider, dear))
    requires in1 <= in2 && 0 <= in2 && out1 <= out2 && 0 <= out2
    ensures Cost(t, provider, cheap, in1, out1).0 <= Cost(t, provider, dear, in2, out2).0
    ensures ToMicro(Cost(t, provider, cheap, in1, out1).0) <= ToMicro(Cost(t, provider, dear, in2, out2).0)
  {
    var c, d := Key(provider, cheap), Key(provider, dear);
    if c in t {
      ProductLe(in1 as real / 1000000.0, t[c].input, in2 as real / 1000000.0, t[d].input);
      ProductLe(out1 as real / 1000000.0, t[c].output, out2 as real / 1000000.0, t[d].output);
    } else if d in t {
      ProductLe(0.0, 0.0, in2 as real / 1000000.0, t[d].input);
      ProductLe(0.0, 0.0, out2 as real / 1000000.0, t[d].output);
    }
    MicroMonotone(Cost(t, provider, cheap, in1, out1).0, Cost(t, provider, dear, in2, out2).0);
  }
}
