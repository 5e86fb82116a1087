/** Per-domain weight lists and the two selectors that compute the next
    expected top IP of a domain (`weightItem`, `domain` and `nextTopIP` in
    plugin/loadbalance/weighted.go and handler.go). */
module Weights {
  import opened Wrappers
  import opened Net

  /** `weightItem`: an address with its `uint8` weight. */
  datatype WeightItem = WeightItem(address: IP, value: uint8)

  /** The selector a domain owns. `Randomized` draws by prefix sums over
      `wsum`; `Deterministic` walks the sorted list with a cursor and a repeat
      counter. */
  datatype Selector = Randomized | Deterministic(cursor: nat, count: nat)

  /** `domain`: the weight list, the expected top IP (`None` is Go's nil
      `net.IP`, equal to no address), the accumulated weight sum and the
      selector state. */
  datatype Domain = Domain(weights: seq<WeightItem>, topIP: Option<IP>, wsum: nat, sel: Selector)

  /** The `domain{}` the parser creates for a new header: no weights, no top
      IP, `wsum` zero and a selector in its initial state. */
  function Blank(isRandom: bool): (d: Domain)
    ensures d.weights == [] && d.topIP.None? && d.wsum == 0 && !Ready(d)
    ensures d.sel.Randomized? == isRandom && (d.sel.Deterministic? ==> d.sel == Deterministic(0, 0))
  {
    Domain([], None, 0, if isRandom then Randomized else Deterministic(0, 0))
  }

  // ---------------------------------------------------------------- sums

  function Sum(ws: seq<WeightItem>): nat {
    if ws == [] then 0 else ws[0].value as nat + Sum(ws[1..])
  }

  /** The sum of the weights before index `i`. */
  function Prefix(ws: seq<WeightItem>, i: nat): nat
    requires i <= |ws|
  {
    Sum(ws[..i])
  }

  lemma {:induction false} SumConcat(a: seq<WeightItem>, b: seq<WeightItem>)
    ensures Sum(a + b) == Sum(a) + Sum(b)
    decreases |a|
  {
    if a == [] {
      assert a + b == b;
    } else {
      assert (a + b)[1..] == a[1..] + b;
      SumConcat(a[1..], b);
    }
  }

  lemma PrefixStep(ws: seq<WeightItem>, i: nat)
    requires i < |ws|
    ensures Prefix(ws, i + 1) == Prefix(ws, i) + ws[i].value as nat
  {
    assert ws[..i + 1] == ws[..i] + [ws[i]];
    SumConcat(ws[..i], [ws[i]]);
  }

  lemma PrefixBound(ws: seq<WeightItem>, i: nat)
    requires i <= |ws|
    ensures Prefix(ws, i) + Sum(ws[i..]) == Sum(ws)
  {
    assert ws == ws[..i] + ws[i..];
    SumConcat(ws[..i], ws[i..]);
  }

  lemma SumRemove(b: seq<WeightItem>, j: nat)
    requires j < |b|
    ensures Sum(b) == Sum(b[..j] + b[j + 1..]) + b[j].value as nat
  {
    var l, r := b[..j], b[j + 1..];
    var t := [b[j]] + r;
    assert b == l + t;
    assert t[0] == b[j] && t[1..] == r;
    SumConcat(l, t);
    SumConcat(l, r);
  }

  lemma MultisetRemove(b: seq<WeightItem>, j: nat)
    requires j < |b|
    ensures multiset(b[..j] + b[j + 1..]) == multiset(b) - multiset{b[j]}
  {
    assert b == b[..j] + [b[j]] + b[j + 1..];
  }

  /** Removing the first entry of `a` and the same entry of `b` keeps the
      two lists permutations of each other. */
  lemma PermutationTail(a: seq<WeightItem>, b: seq<WeightItem>, j: nat)
    requires multiset(a) == multiset(b) && a != [] && j < |b| && b[j] == a[0]
    ensures multiset(a[1..]) == multiset(b[..j] + b[j + 1..])
  {
    var x := a[0];
    assert a == [x] + a[1..];
    assert multiset(a) - multiset{x} == multiset(a[1..]);
    MultisetRemove(b, j);
  }

  /** The weight sum does not depend on the order of the list: sorting a
      domain's weights leaves its `wsum` unchanged. */
  lemma {:induction false} SumPermutation(a: seq<WeightItem>, b: seq<WeightItem>)
    requires multiset(a) == multiset(b)
    ensures Sum(a) == Sum(b)
    decreases |a|
  {
    if a == [] {
      assert |b| == |multiset(b)| == 0;
    } else {
      var x := a[0];
      assert x in multiset(b);
      var j :| 0 <= j < |b| && b[j] == x;
      var rest := b[..j] + b[j + 1..];
      PermutationTail(a, b, j);
      SumPermutation(a[1..], rest);
      SumRemove(b, j);
    }
  }

  // ----------------------------------------------- randomized selection

  /** The index picked for the draw `v`: the first entry whose running
      prefix sum exceeds `v`. */
  function Pick(ws: seq<WeightItem>, v: nat): (i: nat)
    requires v < Sum(ws)
    ensures i < |ws| && Prefix(ws, i) <= v < Prefix(ws, i) + ws[i].value as nat
    decreases |ws|
  {
    assert ws[..1] == [ws[0]];
    if v < ws[0].value as nat then 0
    else
      var j := Pick(ws[1..], v - ws[0].value as nat);
      PrefixCons(ws, j + 1);
      1 + j
  }

  /** The prefix before `i > 0` is the first weight plus the prefix of the
      tail before `i - 1`. */
  lemma PrefixCons(ws: seq<WeightItem>, i: nat)
    requires 0 < i <= |ws|
    ensures Prefix(ws, i) == ws[0].value as nat + Prefix(ws[1..], i - 1)
  {
    assert ws[..i] == [ws[0]] + ws[1..][..i - 1];
    SumConcat([ws[0]], ws[1..][..i - 1]);
    assert [ws[0]][1..] == [];
  }

  /** The draw `v` picks index `i` exactly when `v` lies in the interval of
      width `ws[i].value` that starts at the prefix sum before `i`. */
  lemma {:induction false} PickInterval(ws: seq<WeightItem>, v: nat, i: nat)
    requires v < Sum(ws) && i < |ws|
    ensures Pick(ws, v) == i <==> Prefix(ws, i) <= v < Prefix(ws, i) + ws[i].value as nat
    decreases |ws|
  {
    assert ws[..1] == [ws[0]];
    if i > 0 {
      var x := ws[0].value as nat;
      assert ws[..i] == [ws[0]] + ws[1..][..i - 1];
      SumConcat([ws[0]], ws[1..][..i - 1]);
      assert Prefix(ws, i) == x + Prefix(ws[1..], i - 1);
      if v >= x {
        PickInterval(ws[1..], v - x, i - 1);
      }
    }
  }

  /** The draws in `[0, total)` that pick index `i`. */
  function DrawsPicking(ws: seq<WeightItem>, i: nat): set<nat>
    requires Sum(ws) > 0
  {
    set v: nat | v < Sum(ws) && Pick(ws, v) == i
  }

  /** The integers `lo, lo + 1, ..., lo + w - 1`. */
  function Interval(lo: nat, w: nat): (r: set<nat>)
    ensures |r| == w
    ensures forall v :: v in r <==> lo <= v < lo + w
  {
    if w == 0 then {} else Interval(lo, w - 1) + {lo + w - 1}
  }

  /** Each entry is picked for exactly `value` of the `wsum` possible draws
      in `[0, wsum)`: the exact counterpart of choosing it with probability
      `value / wsum`. */
  lemma PickCount(ws: seq<WeightItem>, i: nat)
    requires i < |ws| && Sum(ws) > 0
    ensures |DrawsPicking(ws, i)| == ws[i].value as nat
  {
    var lo, w := Prefix(ws, i), ws[i].value as nat;
    PrefixStep(ws, i);
    PrefixBound(ws, i + 1);
    forall v: nat | v < Sum(ws)
      ensures Pick(ws, v) == i <==> lo <= v < lo + w
    {
      PickInterval(ws, v, i);
    }
    assert DrawsPicking(ws, i) == Interval(lo, w);
  }

  /** A zero-weight entry is never picked. */
  lemma ZeroWeightNeverPicked(ws: seq<WeightItem>, v: nat, i: nat)
    requires v < Sum(ws) && i < |ws| && ws[i].value == 0
    ensures Pick(ws, v) != i
  {
    PickInterval(ws, v, i);
  }

  /** The prefix-sum loop of `nextTopIP`: the index of the first entry whose
      running sum exceeds the draw `v`. */
  method SelectIndex(ws: seq<WeightItem>, v: nat) returns (i: nat)
    requires v < Sum(ws)
    ensures i == Pick(ws, v)
  {
    var psum := 0;
    i := 0;
    PrefixBound(ws, 0);
    while true
      invariant i < |ws| && psum == Prefix(ws, i) && psum <= v
      decreases |ws| - i
    {
      PrefixStep(ws, i);
      psum := psum + ws[i].value as nat;
      if v < psum {
        break;
      }
      PrefixBound(ws, i + 1);
      assert ws[i + 1..] != [];
      i := i + 1;
    }
    PickInterval(ws, v, i);
  }

  // ------------------------------------------------ selector state

  /** What a domain needs before its selector may run: a non-empty list, a
      `wsum` equal to the sum of its weights, positive for the randomized
      selector (`rn.Intn(0)` panics), and for the deterministic selector a
      cursor inside the list whose counter has not yet reached its
      weight. */
  predicate Ready(d: Domain) {
    |d.weights| > 0 && d.wsum == Sum(d.weights) &&
    match d.sel
    case Randomized => d.wsum > 0
    case Deterministic(c, n) => c < |d.weights| && (n == 0 || n < d.weights[c].value as nat)
  }

  /** `nextTopIP`: the domain with its next expected top IP and its
      advanced selector. `draw` stands for the generator: `rn.Intn(wsum)`
      yields `draw % wsum`, which reaches every value of `[0, wsum)`. The
      deterministic selector puts the entry at its cursor on top and moves
      to the next entry (cyclically) once that entry has been on top as
      many times as its weight. */
  function NextTop(d: Domain, draw: nat): (r: Domain)
    requires Ready(d)
    ensures Ready(r) && r.topIP.Some?
    ensures r.weights == d.weights && r.wsum == d.wsum && r.sel.Randomized? == d.sel.Randomized?
  {
    assert Sum(d.weights) > 0 || d.sel.Deterministic?;
    match d.sel
    case Randomized =>
      d.(topIP := Some(d.weights[Pick(d.weights, draw % d.wsum)].address))
    case Deterministic(c, n) =>
      if n + 1 >= d.weights[c].value as nat then
        d.(topIP := Some(d.weights[c].address), sel := Deterministic(if c + 1 < |d.weights| then c + 1 else 0, 0))
      else
        d.(topIP := Some(d.weights[c].address), sel := Deterministic(c, n + 1))
  }

  /** `nextTopIP` as the source writes it: draw, then walk the list. */
  method NextTopIP(d: Domain, draw: nat) returns (r: Domain)
    requires Ready(d)
    ensures r == NextTop(d, draw)
  {
    match d.sel {
      case Randomized =>
        var v := draw % d.wsum;
        var i := SelectIndex(d.weights, v);
        r := d.(topIP := Some(d.weights[i].address));
      case Deterministic(c, n) =>
        var top := d.weights[c].address;
        if n + 1 >= d.weights[c].value as nat {
          r := d.(topIP := Some(top), sel := Deterministic(if c + 1 < |d.weights| then c + 1 else 0, 0));
        } else {
          r := d.(topIP := Some(top), sel := Deterministic(c, n + 1));
        }
    }
  }

  /** Under the randomized selector the new top IP is the address of an
      entry with a positive weight. */
  lemma RandomizedTopHasWeight(d: Domain, draw: nat)
    requires Ready(d) && d.sel.Randomized?
    ensures exists i :: 0 <= i < |d.weights| && d.weights[i].value > 0 &&
                       NextTop(d, draw).topIP == Some(d.weights[i].address)
  {
    var i := Pick(d.weights, draw % d.wsum);
    PickInterval(d.weights, draw % d.wsum, i);
  }

  // ------------------------------------------- deterministic cycle

  function Repeat(ip: IP, n: nat): (r: seq<IP>)
    ensures |r| == n && forall k :: 0 <= k < n ==> r[k] == ip
  {
    if n == 0 then [] else [ip] + Repeat(ip, n - 1)
  }

  /** One full round of the deterministic selector: each address repeated
      as many times as its weight, in list order. */
  function Cycle(ws: seq<WeightItem>): seq<IP> {
    if ws == [] then [] else Repeat(ws[0].address, ws[0].value as nat) + Cycle(ws[1..])
  }

  lemma {:induction false} CycleAt(ws: seq<WeightItem>, c: nat, j: nat)
    requires c < |ws| && j < ws[c].value as nat
    ensures |Cycle(ws)| == Sum(ws)
    ensures Prefix(ws, c) + j < |Cycle(ws)| && Cycle(ws)[Prefix(ws, c) + j] == ws[c].address
    decreases c
  {
    CycleLength(ws);
    PrefixStep(ws, c);
    PrefixBound(ws, c + 1);
    var x := ws[0].value as nat;
    if c > 0 {
      assert ws[..c] == [ws[0]] + ws[1..][..c - 1];
      SumConcat([ws[0]], ws[1..][..c - 1]);
      assert [ws[0]][1..] == [];
      CycleAt(ws[1..], c - 1, j);
    }
  }

  lemma {:induction false} CycleLength(ws: seq<WeightItem>)
    ensures |Cycle(ws)| == Sum(ws)
    decreases |ws|
  {
    if ws != [] {
      CycleLength(ws[1..]);
    }
  }

  predicate PositiveWeights(ws: seq<WeightItem>) {
    forall i :: 0 <= i < |ws| ==> ws[i].value > 0
  }

  /** The domain after `m` calls of the selector. */
  function After(d: Domain, m: nat): (r: Domain)
    requires Ready(d)
    ensures Ready(r) && r.weights == d.weights && r.sel.Randomized? == d.sel.Randomized?
  {
    if m == 0 then d else NextTop(After(d, m - 1), 0)
  }

  /** The position of a deterministic selector state inside `Cycle`. */
  function Position(d: Domain): nat
    requires Ready(d) && d.sel.Deterministic?
  {
    Prefix(d.weights, d.sel.cursor) + d.sel.count
  }

  /** The deterministic selector's position is a place of `Cycle`
      holding the address at its cursor. */
  lemma PlaceInCycle(d: Domain)
    requires Ready(d) && d.sel.Deterministic? && PositiveWeights(d.weights)
    ensures |Cycle(d.weights)| == Sum(d.weights) && Position(d) < Sum(d.weights)
    ensures Cycle(d.weights)[Position(d)] == d.weights[d.sel.cursor].address
  {
    var ws, c, n := d.weights, d.sel.cursor, d.sel.count;
    assert n < ws[c].value as nat;
    CycleAt(ws, c, n);
    PrefixStep(ws, c);
    PrefixBound(ws, c + 1);
  }

  /** One step of the deterministic selector moves its position one place
      on, back to the start after the last place. */
  lemma NextPlace(d: Domain)
    requires Ready(d) && d.sel.Deterministic? && PositiveWeights(d.weights)
    ensures Position(NextTop(d, 0)) == if Position(d) + 1 < Sum(d.weights) then Position(d) + 1 else 0
  {
    var ws, c, n := d.weights, d.sel.cursor, d.sel.count;
    assert n < ws[c].value as nat;
    PrefixStep(ws, c);
    PrefixBound(ws, c + 1);
    var d' := NextTop(d, 0);
    if n + 1 < ws[c].value as nat {
      assert d'.sel == Deterministic(c, n + 1);
    } else if c + 1 < |ws| {
      assert d'.sel == Deterministic(c + 1, 0);
      assert ws[c + 1..][0] == ws[c + 1];
      assert Sum(ws[c + 1..]) > 0;
    } else {
      assert d'.sel == Deterministic(0, 0);
      assert ws[c + 1..] == [];
      assert Prefix(ws, 0) == 0 by { assert ws[..0] == []; }
    }
  }

  /** One step of the deterministic selector puts `Cycle[Position]` on top
      and moves the position one place on, back to the start after the
      last place. */
  lemma DeterministicStep(d: Domain)
    requires Ready(d) && d.sel.Deterministic? && PositiveWeights(d.weights)
    ensures |Cycle(d.weights)| == Sum(d.weights) && Position(d) < Sum(d.weights)
    ensures NextTop(d, 0).topIP == Some(Cycle(d.weights)[Position(d)])
    ensures Position(NextTop(d, 0)) == if Position(d) + 1 < Sum(d.weights) then Position(d) + 1 else 0
  {
    PlaceInCycle(d);
    NextPlace(d);
  }

  /** The initial state is at the start of the cycle. */
  lemma InitialPosition(d: Domain)
    requires Ready(d) && d.sel == Deterministic(0, 0)
    ensures Position(After(d, 0)) == 0
  {
    assert After(d, 0) == d;
    assert Prefix(d.weights, 0) == 0 by { assert d.weights[..0] == []; }
  }

  /** The place of the deterministic selector after `m` calls, counted
      one call at a time around a cycle of length `s`. */
  function Wrap(m: nat, s: nat): nat {
    if m == 0 then 0 else if Wrap(m - 1, s) + 1 < s then Wrap(m - 1, s) + 1 else 0
  }

  /** Counting on from a place `0` reaches the `k`-th place after `k`
      calls, and is back at `0` after `s` calls. */
  lemma {:induction false} WrapWithin(base: nat, s: nat, k: nat)
    requires Wrap(base, s) == 0 && k < s
    ensures Wrap(base + k, s) == k
    ensures Wrap(base + k + 1, s) == if k + 1 < s then k + 1 else 0
    decreases k
  {
    if k > 0 {
      WrapWithin(base, s, k - 1);
    }
  }

  lemma {:induction false} WrapRound(q: nat, s: nat, k: nat)
    requires k < s
    ensures Wrap(q * s + k, s) == k
    decreases q
  {
    if q > 0 {
      WrapRound(q - 1, s, s - 1);
      assert (q - 1) * s + (s - 1) + 1 == q * s;
      WrapWithin(q * s, s, k);
    } else {
      WrapWithin(0, s, k);
    }
  }

  /** After `m` calls from the initial state the deterministic selector is
      at place `Wrap(m, wsum)` of `Cycle`. */
  lemma {:induction false} Track(d: Domain, m: nat)
    requires Ready(d) && d.sel == Deterministic(0, 0) && PositiveWeights(d.weights)
    ensures Position(After(d, m)) == Wrap(m, Sum(d.weights))
    decreases m
  {
    if m == 0 {
      InitialPosition(d);
    } else {
      Track(d, m - 1);
      NextPlace(After(d, m - 1));
    }
  }

  /** Started from its initial state, the deterministic selector puts on
      top, at call `q * wsum + k + 1`, entry `k` of `Cycle`: each address
      appears consecutively as many times as its weight, and the round
      repeats indefinitely. */
  lemma DeterministicCycle(d: Domain, q: nat, k: nat)
    requires Ready(d) && d.sel == Deterministic(0, 0) && PositiveWeights(d.weights)
    requires k < Sum(d.weights)
    ensures |Cycle(d.weights)| == Sum(d.weights)
    ensures After(d, q * Sum(d.weights) + k + 1).topIP == Some(Cycle(d.weights)[k])
  {
    WrapRound(q, Sum(d.weights), k);
    TopAtPlace(d, q * Sum(d.weights) + k, k);
  }

  /** Call `m + 1` puts on top place `k` of `Cycle` when `m` calls reach
      place `k`. */
  lemma TopAtPlace(d: Domain, m: nat, k: nat)
    requires Ready(d) && d.sel == Deterministic(0, 0) && PositiveWeights(d.weights)
    requires Wrap(m, Sum(d.weights)) == k
    ensures |Cycle(d.weights)| == Sum(d.weights) && k < Sum(d.weights)
    ensures After(d, m + 1).topIP == Some(Cycle(d.weights)[k])
  {
    Track(d, m);
    TopAt(d, m);
  }

  /** Call `m + 1` puts on top the place of `Cycle` reached after `m`
      calls. */
  lemma TopAt(d: Domain, m: nat)
    requires Ready(d) && d.sel.Deterministic? && PositiveWeights(d.weights)
    ensures |Cycle(d.weights)| == Sum(d.weights) && Position(After(d, m)) < Sum(d.weights)
    ensures After(d, m + 1).topIP == Some(Cycle(d.weights)[Position(After(d, m))])
  {
    var e := After(d, m);
    PlaceInCycle(e);
    assert After(d, m + 1) == NextTop(e, 0);
  }

  // ----------------------------------------------------------- sorting

  /** Non-increasing by weight: the order `sort.Slice` establishes with
      `weights[i].value > weights[j].value`. */
  predicate SortedDesc(ws: seq<WeightItem>) {
    forall i, j :: 0 <= i < j < |ws| ==> ws[i].value >= ws[j].value
  }

  function InsertDesc(x: WeightItem, s: seq<WeightItem>): (r: seq<WeightItem>)
    requires SortedDesc(s)
    ensures SortedDesc(r) && multiset(r) == multiset(s) + multiset{x}
  {
    if s == [] || x.value >= s[0].value then [x] + s
    else
      var t := InsertDesc(x, s[1..]);
      assert s == [s[0]] + s[1..];
      BelowHead(x, s, t);
      ConsSorted(s[0], t);
      [s[0]] + t
  }

  lemma ConsSorted(h: WeightItem, t: seq<WeightItem>)
    requires SortedDesc(t) && forall k :: 0 <= k < |t| ==> t[k].value <= h.value
    ensures SortedDesc([h] + t)
  {
    var r := [h] + t;
    assert forall k :: 0 < k < |r| ==> r[k] == t[k - 1];
  }

  /** What is inserted after the head of a sorted list weighs no more than
      the head. */
  lemma BelowHead(x: WeightItem, s: seq<WeightItem>, t: seq<WeightItem>)
    requires SortedDesc(s) && s != [] && x.value < s[0].value
    requires multiset(t) == multiset(s[1..]) + multiset{x}
    ensures forall k :: 0 <= k < |t| ==> t[k].value <= s[0].value
  {
    forall k | 0 <= k < |t| ensures t[k].value <= s[0].value {
      assert t[k] in multiset(t);
      if t[k] != x {
        assert t[k] in multiset(s[1..]);
        var j :| 0 <= j < |s[1..]| && s[1..][j] == t[k];
        assert s[j + 1] == t[k];
      }
    }
  }

  /** The sort of `updateWeights`: a permutation of the list, non-increasing
      by weight. `sort.Slice` is not stable, so nothing is promised about the
      order of equal weights. */
  method SortByWeight(ws: seq<WeightItem>) returns (r: seq<WeightItem>)
    ensures SortedDesc(r) && multiset(r) == multiset(ws)
  {
    r := [];
    var i := 0;
    while i < |ws|
      invariant i <= |ws| && SortedDesc(r) && multiset(r) == multiset(ws[..i])
    {
      assert ws[..i + 1] == ws[..i] + [ws[i]];
      r := InsertDesc(ws[i], r);
      i := i + 1;
    }
    assert ws[..i] == ws;
  }

  /** The loop `d.wsum += uint(w.value)` of `updateWeights`. */
  method AccumulateWeights(start: nat, ws: seq<WeightItem>) returns (total: nat)
    ensures total == start + Sum(ws)
  {
    total := start;
    var i := 0;
    while i < |ws|
      invariant i <= |ws| && total == start + Prefix(ws, i)
    {
      PrefixStep(ws, i);
      total := total + ws[i].value as nat;
      i := i + 1;
    }
    assert ws[..i] == ws;
  }
}
