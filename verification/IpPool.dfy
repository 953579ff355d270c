/** The VPN subnet pool of daemon/net.go and the way events write subnets down (daemon/event.go). */
module IpPool {
  import opened Wrappers
  import opened Utf8
  import opened Decimal

  type Text = seq<Byte>

  // ----- Weighted choice -----

  datatype Weighted = Weighted(key: Text, weight: int)

  predicate Positive(ws: seq<Weighted>) { forall i :: 0 <= i < |ws| ==> ws[i].weight >= 1 }

  function Total(ws: seq<Weighted>): int {
    if ws == [] then 0 else Total(ws[..|ws| - 1]) + ws[|ws| - 1].weight
  }

  /** The weights may be summed in one order and ranged over in another. */
  lemma {:induction false} TotalIgnoresOrder(a: seq<Weighted>, b: seq<Weighted>)
    requires multiset(a) == multiset(b)
    ensures Total(a) == Total(b)
  {
    if a == [] {
      assert |b| == |multiset(b)| == 0;
    } else {
      var most, x := a[..|a| - 1], a[|a| - 1];
      assert a == most + [x];
      assert x in multiset(b);
      var k :| 0 <= k < |b| && b[k] == x;
      var p, q := b[..k], b[k + 1..];
      Split(b, k);
      Without(most, x, p, q);
      TotalIgnoresOrder(most, p + q);
      TotalMiddle(p, x, q);
    }
  }

  lemma Split(ws: seq<Weighted>, k: nat)
    requires k < |ws|
    ensures ws == ws[..k] + [ws[k]] + ws[k + 1..]
  {
  }

  lemma Without(most: seq<Weighted>, x: Weighted, p: seq<Weighted>, q: seq<Weighted>)
    requires multiset(most + [x]) == multiset(p + [x] + q)
    ensures multiset(most) == multiset(p + q)
  {
    assert multiset(most) == multiset(most + [x]) - multiset{x};
    assert multiset(p + q) == multiset(p + [x] + q) - multiset{x};
  }

  lemma TotalMiddle(a: seq<Weighted>, w: Weighted, b: seq<Weighted>)
    ensures Total(a + [w] + b) == Total(a + b) + w.weight
  {
    assert Total([w]) == Total([w][..0]) + w.weight && [w][..0] == [];
    assert Total([]) == 0;
    hide Total;
    TotalConcat(a + [w], b);
    TotalConcat(a, [w]);
    TotalConcat(a, b);
  }

  lemma {:induction false} TotalConcat(a: seq<Weighted>, b: seq<Weighted>)
    ensures Total(a + b) == Total(a) + Total(b)
  {
    if b == [] {
      assert a + b == a;
    } else {
      TotalConcat(a, b[..|b| - 1]);
      assert (a + b)[..|a + b| - 1] == a + b[..|b| - 1];
    }
  }

  lemma {:induction false} PrefixesGrow(ws: seq<Weighted>, i: nat, j: nat)
    requires i <= j <= |ws| && Positive(ws)
    ensures Total(ws[..i]) + (j - i) <= Total(ws[..j])
    decreases j
  {
    if i < j {
      PrefixesGrow(ws, i, j - 1);
      assert ws[..j][..j - 1] == ws[..j - 1];
    }
  }

  /** The running total has reached draw `r` at entry `i`. */
  predicate Reached(ws: seq<Weighted>, r: int, i: nat) { i < |ws| && r <= Total(ws[..i + 1]) }

  /** Draw `r` picks entry `i`: the first one at which the running total reaches the draw. */
  ghost predicate PicksEntry(ws: seq<Weighted>, r: int, i: nat) {
    Reached(ws, r, i) && forall j: nat :: j < i ==> !Reached(ws, r, j)
  }

  /** randomPickWeighted, given the order of the second loop and the number Intn draws.  The empty string is never
      returned. */
  method RandomPickWeighted(ws: seq<Weighted>, draw: int) returns (key: Text)
    requires 0 <= draw < Total(ws)
    ensures exists i: nat :: PicksEntry(ws, draw, i) && key == ws[i].key
  {
    assert Reached(ws, draw, |ws| - 1) by { assert ws[..|ws|] == ws; }
    var r := draw;
    for i := 0 to |ws|
      invariant r == draw - Total(ws[..i])
      invariant forall j: nat :: j < i ==> !Reached(ws, draw, j)
    {
      assert ws[..i + 1][..i] == ws[..i];
      r := r - ws[i].weight;
      if r <= 0 {
        assert PicksEntry(ws, draw, i);
        return ws[i].key;
      }
    }
    assert false;
  }

  /** Every draw picks exactly one entry, whatever the signs of the weights. */
  lemma EveryDrawPicksOneEntry(ws: seq<Weighted>, r: int)
    requires 0 <= r < Total(ws)
    ensures exists i: nat :: PicksEntry(ws, r, i)
    ensures forall i: nat, j: nat :: PicksEntry(ws, r, i) && PicksEntry(ws, r, j) ==> i == j
  {
    assert ws[..|ws|] == ws;
    FindsEntry(ws, r, |ws| - 1);
  }

  lemma {:induction false} FindsEntry(ws: seq<Weighted>, r: int, n: nat)
    requires Reached(ws, r, n)
    ensures exists i: nat :: PicksEntry(ws, r, i)
  {
    if j: nat :| j < n && Reached(ws, r, j) {
      FindsEntry(ws, r, j);
    } else {
      assert PicksEntry(ws, r, n);
    }
  }

  /** The smallest draw that picks entry `i`, if weights are positive. */
  function From(ws: seq<Weighted>, i: nat): int
    requires i < |ws|
  {
    if i == 0 then 0 else Total(ws[..i]) + 1
  }

  lemma PicksInterval(ws: seq<Weighted>, r: int, i: nat)
    requires Positive(ws) && i < |ws| && r >= 0
    ensures PicksEntry(ws, r, i) <==> From(ws, i) <= r <= Total(ws[..i + 1])
  {
    if i > 0 { assert Reached(ws, r, i - 1) <==> r <= Total(ws[..i]); }
    forall j: nat | j < i && Reached(ws, r, j) ensures r <= Total(ws[..i]) { PrefixesGrow(ws, j + 1, i); }
  }

  ghost function DrawsFor(ws: seq<Weighted>, i: nat): set<int>
    requires i < |ws|
  {
    set r | 0 <= r < Total(ws) && PicksEntry(ws, r, i)
  }

  /** Of all draws, the first entry gets one more than its weight and the last one less. */
  lemma SharesAreOffByOne(ws: seq<Weighted>, i: nat)
    requires Positive(ws) && i < |ws|
    ensures |DrawsFor(ws, i)| == ws[i].weight + (if i == 0 then 1 else 0) - (if i == |ws| - 1 then 1 else 0)
  {
    assert ws[..|ws|] == ws && ws[..0] == [] && ws[..i + 1][..i] == ws[..i];
    PrefixesGrow(ws, 0, i);
    PrefixesGrow(ws, i + 1, |ws|);
    var hi := if i == |ws| - 1 then Total(ws) - 1 else Total(ws[..i + 1]);
    forall r | 0 <= r < Total(ws) ensures PicksEntry(ws, r, i) <==> From(ws, i) <= r <= hi { PicksInterval(ws, r, i); }
    assert DrawsFor(ws, i) == Interval(From(ws, i), hi);
  }

  ghost function Interval(lo: int, hi: int): (s: set<int>)
    requires lo <= hi + 1
    ensures forall r :: r in s <==> lo <= r <= hi
    ensures |s| == hi + 1 - lo
    decreases hi + 1 - lo
  {
    if lo == hi + 1 then {} else Interval(lo, hi - 1) + {hi}
  }

  // ----- Addresses -----

  const DOT: Byte := 46
  const SLASH: Byte := 47
  const NET25: Text := [50, 53]
  const NET35: Text := [51, 53]
  const HOSTS: nat := 255
  const SPACE: nat := 510     // addresses genIP can produce
  const LIMIT: nat := 60000   // the size at which Get gives up

  /** The address genIP builds from the picked network and a number below 255. */
  function Address(net: Text, n: nat): Text { net + [DOT] + Itoa(n) }

  ghost predicate Drawable(a: Text) { exists n: nat :: n < HOSTS && (a == Address(NET25, n) || a == Address(NET35, n)) }

  lemma AddressInjective(p: Text, m: nat, q: Text, n: nat)
    requires p in {NET25, NET35} && q in {NET25, NET35} && Address(p, m) == Address(q, n)
    ensures p == q && m == n
  {
    var a, b := Address(p, m), Address(q, n);
    assert a[..2] == p && b[..2] == q && a[3..] == Itoa(m) && b[3..] == Itoa(n);
    ItoaInjective(m, n);
  }

  /** The first `n` addresses of a network. */
  ghost function Net(net: Text, n: nat): set<Text> {
    if n == 0 then {} else Net(net, n - 1) + {Address(net, n - 1)}
  }

  lemma {:induction false} InNet(net: Text, n: nat, a: Text)
    ensures a in Net(net, n) <==> exists k: nat :: k < n && a == Address(net, k)
  {
    hide Address;
    if n > 0 { InNet(net, n - 1, a); }
  }

  lemma {:induction false} NetSize(net: Text, n: nat)
    requires net in {NET25, NET35}
    ensures |Net(net, n)| == n
  {
    if n > 0 {
      assert Net(net, n) == Net(net, n - 1) + {Address(net, n - 1)};
      hide Address, Net;
      NetSize(net, n - 1);
      InNet(net, n - 1, Address(net, n - 1));
      if k: nat :| k < n - 1 && Address(net, n - 1) == Address(net, k) { AddressInjective(net, k, net, n - 1); }
    }
  }

  /** Both networks up to `n`: with n == 255, every address the pool can produce. */
  ghost function Nets(n: nat): set<Text> { Net(NET25, n) + Net(NET35, n) }

  ghost function AllDrawable(): set<Text> { Nets(HOSTS) }

  lemma InAllDrawable(a: Text)
    ensures a in AllDrawable() <==> Drawable(a)
  {
    hide Net, Address;
    InNet(NET25, HOSTS, a);
    InNet(NET35, HOSTS, a);
  }

  lemma NetsSize(n: nat)
    ensures |Nets(n)| == 2 * n
  {
    NetSize(NET25, n);
    NetSize(NET35, n);
    forall a | a in Net(NET25, n) ensures a !in Net(NET35, n) {
      hide Net, Itoa;
      InNet(NET25, n, a);
      InNet(NET35, n, a);
      assert a[0] == NET25[0];
    }
    hide Net;
    UnionSize(Net(NET25, n), Net(NET35, n));
  }

  lemma SpaceSize()
    ensures |AllDrawable()| == SPACE
  {
    hide Nets;
    NetsSize(HOSTS);
  }

  lemma UnionSize(a: set<Text>, b: set<Text>)
    requires a !! b
    ensures |a + b| == |a| + |b|
  {
  }

  function Dots(t: Text): nat { if t == [] then 0 else Dots(t[..|t| - 1]) + if t[|t| - 1] == DOT then 1 else 0 }

  lemma {:induction false} DotsConcat(a: Text, b: Text)
    ensures Dots(a + b) == Dots(a) + Dots(b)
  {
    if b == [] {
      assert a + b == a;
    } else {
      DotsConcat(a, b[..|b| - 1]);
      assert (a + b)[..|a + b| - 1] == a + b[..|b| - 1];
    }
  }

  lemma {:induction false} NoDots(t: Text)
    requires DOT !in t
    ensures Dots(t) == 0
  {
    if t != [] { NoDots(t[..|t| - 1]); }
  }

  lemma AddressHasOneDot(net: Text, n: nat)
    requires net in {NET25, NET35}
    ensures Dots(Address(net, n)) == 1 && SLASH !in Address(net, n)
  {
    var digits := Itoa(n);
    assert DOT !in digits && SLASH !in digits;
    hide Itoa;
    OneDot(net, digits);
  }

  lemma OneDot(a: Text, b: Text)
    requires DOT !in a && DOT !in b
    ensures Dots(a + [DOT] + b) == 1
  {
    DotsConcat(a + [DOT], b);
    DotsConcat(a, [DOT]);
    NoDots(a);
    NoDots(b);
    assert Dots([DOT]) == Dots([]) + 1;
  }

  lemma DrawableHasOneDot(a: Text)
    requires Drawable(a)
    ensures Dots(a) == 1 && SLASH !in a
  {
    hide Itoa, Dots;
    var n: nat :| n < HOSTS && (a == Address(NET25, n) || a == Address(NET35, n));
    AddressHasOneDot(NET25, n);
    AddressHasOneDot(NET35, n);
  }

  // ----- The pool -----

  lemma TwoEntries(ws: seq<Weighted>, r: int)
    requires |ws| == 2
    ensures Total(ws) == ws[0].weight + ws[1].weight
    ensures PicksEntry(ws, r, 0) <==> r <= ws[0].weight
    ensures PicksEntry(ws, r, 1) ==> r > ws[0].weight
  {
    assert ws[..2] == ws && ws[..1] == [ws[0]] && ws[..1][..0] == [] && ws[..2][..1] == ws[..1];
    assert Total(ws[..1]) == ws[0].weight && Total(ws[..2]) == ws[0].weight + ws[1].weight;
    assert Reached(ws, r, 0) <==> r <= ws[0].weight;
  }

  /** What one pass of the retry loop draws: in which order the two weights are ranged over, the number Intn
      draws for the choice, and the number it draws for the third part of the address. */
  datatype Draw = Draw(swapped: bool, r: int, n: nat)

  datatype Weights = Weights(w25: int, w35: int) {
    /** Intn accepts the total. */
    ghost predicate Usable() { w25 + w35 > 0 }

    function Order(swapped: bool): seq<Weighted> {
      if swapped then [Weighted(NET35, w35), Weighted(NET25, w25)] else [Weighted(NET25, w25), Weighted(NET35, w35)]
    }

    ghost predicate Possible(d: Draw) { 0 <= d.r < w25 + w35 && d.n < HOSTS }

    /** The address genIP answers. */
    function Generated(d: Draw): Text {
      var order := Order(d.swapped);
      Address(if d.r <= order[0].weight then order[0].key else order[1].key, d.n)
    }
  }

  datatype GetResult = Got(ip: Text) | NoAvailableIPs | Spinning

  /** The first of the drawn addresses that is free. */
  function FirstFree(ips: set<Text>, w: Weights, draws: seq<Draw>): Option<Text> {
    if draws == [] then None
    else if w.Generated(draws[0]) !in ips then Some(w.Generated(draws[0]))
    else FirstFree(ips, w, draws[1..])
  }

  /** `Spinning` says that the loop has used up `draws` and goes on. */
  function ResultOf(ips: set<Text>, w: Weights, draws: seq<Draw>): GetResult {
    if |ips| > LIMIT then NoAvailableIPs
    else match FirstFree(ips, w, draws)
         case Some(a) => Got(a)
         case None => Spinning
  }

  function AfterGet(ips: set<Text>, w: Weights, draws: seq<Draw>): set<Text> {
    match ResultOf(ips, w, draws)
    case Got(a) => ips + {a}
    case _ => ips
  }

  /** A host address, by its first three parts. */
  datatype Host = Host(a: nat, b: nat, c: nat)

  function HostText(h: Host): Text { Itoa(h.a) + [DOT] + Itoa(h.b) + [DOT] + Itoa(h.c) }

  function Count(hosts: seq<Host>, a: nat): nat {
    if hosts == [] then 0 else Count(hosts[..|hosts| - 1], a) + if hosts[|hosts| - 1].a == a then 1 else 0
  }

  class IPPool {
    var ips: set<Text>
    var weights: Weights

    /** newIPPoolFromHost, with the IPv4 addresses of the host. */
    constructor (hosts: seq<Host>)
      ensures ips == set h | h in hosts && h.a in {25, 35} :: HostText(h)
      ensures weights == Weights(65025 - Count(hosts, 25), 255 - Count(hosts, 35))
    {
      var seen: set<Text> := {};
      var w25, w35 := 255 * 255, 1 * 255;
      for i := 0 to |hosts|
        invariant seen == set h | h in hosts[..i] && h.a in {25, 35} :: HostText(h)
        invariant w25 == 65025 - Count(hosts[..i], 25) && w35 == 255 - Count(hosts[..i], 35)
      {
        var most, h := hosts[..i], hosts[i];
        assert hosts[..i + 1] == most + [h] && hosts[..i + 1][..i] == most;
        FirstPart(h.a);
        hide HostText;
        if Itoa(h.a) == NET25 || Itoa(h.a) == NET35 {
          seen := seen + {HostText(h)};
          if Itoa(h.a) == NET25 { w25 := w25 - 1; } else { w35 := w35 - 1; }
        }
      }
      assert hosts[..|hosts|] == hosts;
      ips, weights := seen, Weights(w25, w35);
    }

    method GenIP(d: Draw) returns (ip: Text)
      requires weights.Usable() && weights.Possible(d)
      ensures ip == weights.Generated(d)
    {
      var order := weights.Order(d.swapped);
      TwoEntries(order, d.r);
      ip := RandomPickWeighted(order, d.r);
      ghost var i: nat :| PicksEntry(order, d.r, i) && ip == order[i].key;
      assert i == 0 || i == 1;
      if ip == NET25 {
        ip := ip + [DOT] + Itoa(d.n);
      } else if ip == NET35 {
        ip := ip + [DOT] + Itoa(d.n);
      }
    }

    method Get(draws: seq<Draw>) returns (r: GetResult)
      requires weights.Usable() && forall d :: d in draws ==> weights.Possible(d)
      modifies this`ips
      ensures ips == AfterGet(old(ips), weights, draws) && r == ResultOf(old(ips), weights, draws)
    {
      if |ips| > LIMIT { return NoAvailableIPs; }
      var k := 0;
      while k < |draws|
        invariant k <= |draws| && ips == old(ips)
        invariant FirstFree(ips, weights, draws) == FirstFree(ips, weights, draws[k..])
      {
        var ip := GenIP(draws[k]);
        if ip !in ips {
          ips := ips + {ip};
          return Got(ip);
        }
        k := k + 1;
      }
      r := Spinning;
    }

    method ReleaseIP(ip: Text)
      modifies this`ips
      ensures ips == old(ips) - {ip}
    {
      ips := ips - {ip};
    }
  }

  lemma FirstPart(a: nat)
    ensures Itoa(a) == NET25 <==> a == 25
    ensures Itoa(a) == NET35 <==> a == 35
  {
    assert Itoa(2) == [50] && Itoa(3) == [51];
    assert Itoa(25) == NET25 && Itoa(35) == NET35;
    if Itoa(a) == NET25 { ItoaInjective(a, 25); }
    if Itoa(a) == NET35 { ItoaInjective(a, 35); }
  }

  // ----- Laws -----

  lemma GeneratedIsDrawable(w: Weights, d: Draw)
    requires w.Possible(d)
    ensures Drawable(w.Generated(d))
  {
    hide Address;
    if w.Generated(d) == Address(NET25, d.n) {
    } else {
      assert w.Generated(d) == Address(NET35, d.n);
    }
  }

  /** The numbers Intn can draw for which the address is in network 25. */
  ghost function DrawsFor25(w: Weights, swapped: bool, n: nat): set<int> {
    set r | 0 <= r < w.w25 + w.w35 && w.Generated(Draw(swapped, r, n)) == [50, 53] + [46] + Itoa(n)
  }

  /** Every address is in network 25 or 35 and ends in the number drawn for it.  Network 25 gets its weight of the draws
      and one more if it is ranged over first, one less if it is ranged over last. */
  lemma NetworkShares(w: Weights, swapped: bool, n: nat)
    requires w.w25 >= 1 && w.w35 >= 1
    ensures |DrawsFor25(w, swapped, n)| == w.w25 + if swapped then -1 else 1
    ensures forall r :: w.Generated(Draw(swapped, r, n)) in {[50, 53] + [46] + Itoa(n), [51, 53] + [46] + Itoa(n)}
  {
    AddressesDiffer(n);
    hide Itoa;
    if swapped {
      assert DrawsFor25(w, swapped, n) == Interval(w.w35 + 1, w.w25 + w.w35 - 1);
    } else {
      assert DrawsFor25(w, swapped, n) == Interval(0, w.w25);
    }
  }

  lemma AddressesDiffer(n: nat)
    ensures Address(NET25, n) == [50, 53] + [46] + Itoa(n) != [51, 53] + [46] + Itoa(n) == Address(NET35, n)
  {
    assert Address(NET25, n)[0] == 50 && ([51, 53] + [46] + Itoa(n))[0] == 51;
  }

  /** Count counts the places of the hosts whose address begins with `a`. */
  lemma {:induction false} CountIsSize(hosts: seq<Host>, a: nat)
    ensures Count(hosts, a) == |set i | 0 <= i < |hosts| && hosts[i].a == a|
  {
    var places := set i | 0 <= i < |hosts| && hosts[i].a == a;
    if hosts == [] {
      assert places == {};
    } else {
      var n := |hosts| - 1;
      var fewer := set i | 0 <= i < n && hosts[..n][i].a == a;
      CountIsSize(hosts[..n], a);
      assert places == if hosts[n].a == a then fewer + {n} else fewer;
    }
  }

  /** Of the addresses Get can produce, one that it returns was free and is one of the 510. */
  lemma {:induction false} GotWasFree(ips: set<Text>, w: Weights, draws: seq<Draw>)
    requires forall d :: d in draws ==> w.Possible(d)
    ensures FirstFree(ips, w, draws).Some? ==>
              FirstFree(ips, w, draws).value !in ips && Drawable(FirstFree(ips, w, draws).value)
    ensures FirstFree(ips, w, draws).None? <==> forall d :: d in draws ==> w.Generated(d) in ips
  {
    if draws != [] {
      assert draws == [draws[0]] + draws[1..];
      GeneratedIsDrawable(w, draws[0]);
      GotWasFree(ips, w, draws[1..]);
    }
  }

  /** Some sequence of draws ends the retry loop exactly when one of the 510 addresses is free. */
  lemma LoopCanExitIff(ips: set<Text>, w: Weights)
    requires w.Usable() && w.w25 >= 0 && w.w35 >= 0 && |ips| <= LIMIT
    ensures (exists draws: seq<Draw> :: (forall d :: d in draws ==> w.Possible(d)) && ResultOf(ips, w, draws).Got?)
            <==> exists a :: Drawable(a) && a !in ips
  {
    if draws: seq<Draw> :| (forall d :: d in draws ==> w.Possible(d)) && ResultOf(ips, w, draws).Got? {
      GotWasFree(ips, w, draws);
    }
    if a :| Drawable(a) && a !in ips {
      var n: nat :| n < HOSTS && (a == Address(NET25, n) || a == Address(NET35, n));
      var d := Draw(a == Address(NET35, n), 0, n);
      assert w.Possible(d) && w.Generated(d) == a;
      assert FirstFree(ips, w, [d]) == Some(a);
      assert ResultOf(ips, w, [d]).Got?;
    }
  }

  datatype Op = Get(draws: seq<Draw>) | Release(ip: Text)

  ghost predicate PossibleOps(w: Weights, ops: seq<Op>) {
    forall i, d :: 0 <= i < |ops| && ops[i].Get? && d in ops[i].draws ==> w.Possible(d)
  }

  function Apply(ips: set<Text>, w: Weights, op: Op): set<Text> {
    match op
    case Get(draws) => AfterGet(ips, w, draws)
    case Release(ip) => ips - {ip}
  }

  function Run(ips: set<Text>, w: Weights, ops: seq<Op>): set<Text> {
    if ops == [] then ips else Apply(Run(ips, w, ops[..|ops| - 1]), w, ops[|ops| - 1])
  }

  /** Operation `i` of the run hands out `a`. */
  predicate HandsOut(ips: set<Text>, w: Weights, ops: seq<Op>, i: nat, a: Text)
    requires i < |ops|
  {
    ops[i].Get? && ResultOf(Run(ips, w, ops[..i]), w, ops[i].draws) == Got(a)
  }

  lemma {:induction false} HeldUntilReleased(ips: set<Text>, w: Weights, ops: seq<Op>, i: nat, j: nat, a: Text)
    requires i < j <= |ops| && HandsOut(ips, w, ops, i, a)
    requires forall k :: i < k < j ==> ops[k] != Release(a)
    ensures a in Run(ips, w, ops[..j])
    decreases j
  {
    assert ops[..j][..j - 1] == ops[..j - 1] && ops[..j][j - 1] == ops[j - 1];
    if j > i + 1 { HeldUntilReleased(ips, w, ops, i, j - 1, a); }
  }

  /** An address is handed out twice only if it was released in between. */
  lemma NeverHandsOutHeld(ips: set<Text>, w: Weights, ops: seq<Op>, i: nat, j: nat, a: Text)
    requires PossibleOps(w, ops) && i < j < |ops|
    requires HandsOut(ips, w, ops, i, a) && HandsOut(ips, w, ops, j, a)
    ensures exists k :: i < k < j && ops[k] == Release(a)
  {
    if forall k :: i < k < j ==> ops[k] != Release(a) {
      HeldUntilReleased(ips, w, ops, i, j, a);
      GotWasFree(Run(ips, w, ops[..j]), w, ops[j].draws);
    }
  }

  /** Every run only ever adds drawable addresses, so at most 510 of them are held on top of the first contents. */
  lemma {:induction false} HeldIsBounded(ips: set<Text>, w: Weights, ops: seq<Op>)
    requires PossibleOps(w, ops)
    ensures Run(ips, w, ops) <= ips + AllDrawable()
    ensures |Run(ips, w, ops) - ips| <= SPACE
    ensures |Run(ips, w, ops)| <= |ips| + SPACE
  {
    Stays(ips, w, ops);
    SpaceSize();
    hide AllDrawable, Run;
    var now := Run(ips, w, ops);
    Smaller(now - ips, AllDrawable());
    Smaller(now, ips + (now - ips));
    assert ips !! (now - ips);
    assert |ips + (now - ips)| == |ips| + |now - ips|;
  }

  lemma {:induction false} Stays(ips: set<Text>, w: Weights, ops: seq<Op>)
    requires PossibleOps(w, ops)
    ensures Run(ips, w, ops) <= ips + AllDrawable()
  {
    if ops != [] {
      var most := ops[..|ops| - 1];
      Stays(ips, w, most);
      assert Run(ips, w, ops) == Apply(Run(ips, w, most), w, ops[|ops| - 1]);
      hide AllDrawable, Run;
      StepStays(Run(ips, w, most), w, ops[|ops| - 1]);
    }
  }

  lemma StepStays(now: set<Text>, w: Weights, op: Op)
    requires op.Get? ==> forall d :: d in op.draws ==> w.Possible(d)
    ensures Apply(now, w, op) <= now + AllDrawable()
  {
    hide AllDrawable, FirstFree, Drawable;
    if op.Get? {
      GotWasFree(now, w, op.draws);
      if FirstFree(now, w, op.draws).Some? { InAllDrawable(FirstFree(now, w, op.draws).value); }
    }
  }

  lemma {:induction false} Smaller(a: set<Text>, b: set<Text>)
    requires a <= b
    ensures |a| <= |b|
  {
    assert |b| == |b - a| + |a * b| && a * b == a;
  }

  /** A pool that starts with few enough host addresses never reports that it is out of addresses: when all 510
      are held, Get retries for ever instead. */
  lemma ExhaustionSpins(ips: set<Text>, w: Weights, ops: seq<Op>, draws: seq<Draw>)
    requires |ips| + SPACE <= LIMIT && PossibleOps(w, ops) && forall d :: d in draws ==> w.Possible(d)
    ensures var now := Run(ips, w, ops);
      && ResultOf(now, w, draws) != NoAvailableIPs
      && (AllDrawable() <= now ==> ResultOf(now, w, draws) == Spinning)
  {
    var now := Run(ips, w, ops);
    HeldIsBounded(ips, w, ops);
    GotWasFree(now, w, draws);
    hide AllDrawable, Run, Drawable, FirstFree;
    if FirstFree(now, w, draws).Some? { InAllDrawable(FirstFree(now, w, draws).value); }
  }

  /** The error is given exactly when more than 60000 addresses are held, and no address is handed out with it. */
  lemma FullIsReportedIff(ips: set<Text>, w: Weights, draws: seq<Draw>)
    ensures ResultOf(ips, w, draws) == NoAvailableIPs <==> |ips| > 60000
    ensures !ResultOf(ips, w, draws).Got? ==> AfterGet(ips, w, draws) == ips
  {
  }

  // A draw that generates the address.
  function DrawOf(net: Text, n: nat): Draw { Draw(net == NET35, 0, n) }

  lemma DrawsIt(w: Weights, net: Text, n: nat)
    requires w.Usable() && w.w25 >= 0 && w.w35 >= 0 && net in {NET25, NET35} && n < HOSTS
    ensures w.Possible(DrawOf(net, n)) && w.Generated(DrawOf(net, n)) == Address(net, n)
  {
  }

  // Get once for each of the first `n` addresses of a network.
  lemma {:induction false} HoldNet(ips: set<Text>, w: Weights, ops: seq<Op>, net: Text, n: nat) returns (more: seq<Op>)
    requires w.Usable() && w.w25 >= 0 && w.w35 >= 0 && |ips| + SPACE <= LIMIT && PossibleOps(w, ops)
    requires net in {NET25, NET35} && n <= HOSTS
    ensures PossibleOps(w, more) && Run(ips, w, ops) + Net(net, n) <= Run(ips, w, more)
  {
    hide Address, AllDrawable, FirstFree;
    if n == 0 {
      more := ops;
    } else {
      var most := HoldNet(ips, w, ops, net, n - 1);
      var op := Get([DrawOf(net, n - 1)]);
      more := most + [op];
      DrawsIt(w, net, n - 1);
      assert more[..|most|] == most;
      HeldIsBounded(ips, w, most);
      GetOne(Run(ips, w, most), w, DrawOf(net, n - 1));
    }
  }

  lemma GetOne(ips: set<Text>, w: Weights, d: Draw)
    requires |ips| <= LIMIT
    ensures AfterGet(ips, w, [d]) == ips + {w.Generated(d)}
  {
    assert FirstFree(ips, w, [d]) == if w.Generated(d) !in ips then Some(w.Generated(d)) else FirstFree(ips, w, []);
  }

  /** All 510 addresses can be held at once, and then Get answers no sequence of draws. */
  lemma PoolCanBeExhausted(ips: set<Text>, w: Weights) returns (ops: seq<Op>)
    requires w.Usable() && w.w25 >= 0 && w.w35 >= 0 && |ips| + SPACE <= LIMIT
    ensures PossibleOps(w, ops) && AllDrawable() <= Run(ips, w, ops)
    ensures forall draws: seq<Draw> :: (forall d :: d in draws ==> w.Possible(d)) ==>
              ResultOf(Run(ips, w, ops), w, draws) == Spinning
  {
    hide Address, Net, Run, ResultOf;
    ops := HoldNet(ips, w, [], NET25, HOSTS);
    ops := HoldNet(ips, w, ops, NET35, HOSTS);
    assert AllDrawable() == Net(NET25, HOSTS) + Net(NET35, HOSTS);
    hide AllDrawable;
    forall draws: seq<Draw> | forall d :: d in draws ==> w.Possible(d)
      ensures ResultOf(Run(ips, w, ops), w, draws) == Spinning
    {
      ExhaustionSpins(ips, w, ops, draws);
    }
  }

  /** The host's own addresses have three parts and those of the pool two: putting them in never makes Get
      avoid anything. */
  lemma {:induction false} HostAddressesBlockNothing(ips: set<Text>, hosts: seq<Host>, w: Weights, draws: seq<Draw>)
    requires forall d :: d in draws ==> w.Possible(d)
    ensures FirstFree(ips + (set h | h in hosts :: HostText(h)), w, draws) == FirstFree(ips, w, draws)
  {
    if draws != [] {
      HostAddressesBlockNothing(ips, hosts, w, draws[1..]);
      GeneratedIsDrawable(w, draws[0]);
      DrawableHasOneDot(w.Generated(draws[0]));
      forall h | h in hosts ensures HostText(h) != w.Generated(draws[0]) { HostTextHasTwoDots(h); }
    }
  }

  lemma HostTextHasTwoDots(h: Host)
    ensures Dots(HostText(h)) == 2
  {
    var a, b, c := Itoa(h.a), Itoa(h.b), Itoa(h.c);
    assert DOT !in a && DOT !in b && DOT !in c;
    hide Itoa;
    OneDot(a, b);
    NoDots(c);
    DotsConcat(a + [DOT] + b + [DOT], c);
    DotsConcat(a + [DOT] + b, [DOT]);
    assert Dots([DOT]) == Dots([]) + 1;
  }

  // ----- Writing a subnet into an event and reading it back -----

  const SUFFIX: Text := [46, 50, 52, 48, 46, 49, 47, 50, 50]   // ".240.1/22"

  function VpnAddress(ip: Text): Text { ip + SUFFIX }

  /** strings.ReplaceAll(s, SUFFIX, ""). */
  function CutSuffixes(s: Text): Text {
    if |s| < |SUFFIX| then s
    else if s[..|SUFFIX|] == SUFFIX then CutSuffixes(s[|SUFFIX|..])
    else [s[0]] + CutSuffixes(s[1..])
  }

  predicate At(s: Text, i: int) { 0 <= i <= |s| - |SUFFIX| && s[i..i + |SUFFIX|] == SUFFIX }

  ghost predicate Contains(s: Text) { exists i :: At(s, i) }

  // The suffix does not overlap itself, so an occurrence in `ip + SUFFIX` is the last one or lies inside `ip`.
  lemma NoStraddling(ip: Text)
    requires 0 < |ip| < |SUFFIX|
    ensures (ip + SUFFIX)[..|SUFFIX|] != SUFFIX
  {
    var m, s := |ip|, ip + SUFFIX;
    var k := if m == 4 then 5 else m;
    assert s[..|SUFFIX|][k] == s[k] == SUFFIX[k - m] != SUFFIX[k];
  }

  lemma {:induction false} CutIgnoresSuffix(ip: Text)
    ensures CutSuffixes(VpnAddress(ip)) == CutSuffixes(ip)
  {
    var s, m := VpnAddress(ip), |SUFFIX|;
    if ip == [] {
      assert s == SUFFIX && s[..m] == SUFFIX && s[m..] == [];
    } else if m <= |ip| && ip[..m] == SUFFIX {
      assert s[..m] == ip[..m] && s[m..] == VpnAddress(ip[m..]);
      CutIgnoresSuffix(ip[m..]);
    } else {
      if |ip| < m { NoStraddling(ip); } else { assert s[..m] == ip[..m]; }
      assert s[1..] == VpnAddress(ip[1..]) && s[0] == ip[0];
      CutIgnoresSuffix(ip[1..]);
      CutStep(ip);
    }
  }

  lemma CutStep(ip: Text)
    requires ip != [] && (|ip| < |SUFFIX| || ip[..|SUFFIX|] != SUFFIX)
    ensures CutSuffixes(ip) == [ip[0]] + CutSuffixes(ip[1..])
  {
    if |ip| < |SUFFIX| {
      CutShort(ip);
      CutShort(ip[1..]);
      HeadTail(ip);
      hide *;
    }
  }

  lemma CutShort(s: Text)
    requires |s| < |SUFFIX|
    ensures CutSuffixes(s) == s
  {
  }

  lemma {:induction false} CutShrinks(s: Text)
    ensures |CutSuffixes(s)| <= |s|
    ensures |CutSuffixes(s)| == |s| <==> CutSuffixes(s) == s
    ensures CutSuffixes(s) == s <==> !Contains(s)
  {
    var m := |SUFFIX|;
    if |s| < m {
    } else if s[..m] == SUFFIX {
      assert At(s, 0);
      CutShrinks(s[m..]);
    } else {
      CutShrinks(s[1..]);
      assert CutSuffixes(s) == [s[0]] + CutSuffixes(s[1..]) && s == [s[0]] + s[1..];
      OccurrencesAfterFirst(s);
    }
  }

  lemma OccurrencesAfterFirst(s: Text)
    requires s != [] && !At(s, 0)
    ensures Contains(s) <==> Contains(s[1..])
  {
    forall i | At(s, i) ensures At(s[1..], i - 1) {
      assert s[1..][i - 1..i - 1 + |SUFFIX|] == s[i..i + |SUFFIX|];
    }
    forall i | At(s[1..], i) ensures At(s, i + 1) {
      assert s[1..][i..i + |SUFFIX|] == s[i + 1..i + 1 + |SUFFIX|];
    }
  }

  /** Reading the subnet back from an event's VPN address works exactly when it does not hold the suffix itself. */
  lemma VpnAddressRoundTripIff(ip: Text)
    ensures CutSuffixes(VpnAddress(ip)) == ip <==> !Contains(ip)
  {
    CutIgnoresSuffix(ip);
    CutShrinks(ip);
  }

  /** Creating an event and stopping it leaves the pool as it was, whatever happened to be drawn. */
  lemma StopReturnsTheSubnet(ips: set<Text>, w: Weights, draws: seq<Draw>)
    requires (forall d :: d in draws ==> w.Possible(d)) && ResultOf(ips, w, draws).Got?
    ensures var ip := ResultOf(ips, w, draws).ip;
      CutSuffixes(VpnAddress(ip)) == ip && AfterGet(ips, w, draws) - {CutSuffixes(VpnAddress(ip))} == ips
  {
    var ip := ResultOf(ips, w, draws).ip;
    GotWasFree(ips, w, draws);
    DrawableHasOneDot(ip);
    forall i | 0 <= i <= |ip| - |SUFFIX| ensures !At(ip, i) {
      assert ip[i..i + |SUFFIX|][6] == ip[i + 6] != SLASH;
    }
    VpnAddressRoundTripIff(ip);
  }
}
