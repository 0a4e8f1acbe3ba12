/** Disk-head scheduling: orders in which requests are served, and what they cost in head movement. */
module Disk {
  import opened Links

  const CYLINDERS: int := 5000

  function Dist(a: int, b: int): nat {
    if a < b then b - a else a - b
  }

  /** Only places of the request list occur in an order. */
  predicate Fit(reqs: seq<int>, o: seq<nat>) {
    forall i :: 0 <= i < |o| ==> o[i] < |reqs|
  }

  /** Every request is served, and only once. */
  ghost predicate Serves(reqs: seq<int>, o: seq<nat>) {
    Fit(reqs, o) && Distinct(o) && forall j: nat :: j < |reqs| ==> j in o
  }

  /** Where the head is after the first `n` of `o`. */
  function PosAt(reqs: seq<int>, start: int, o: seq<nat>, n: nat): int
    requires Fit(reqs, o) && n <= |o|
  {
    if n == 0 then start else reqs[o[n - 1]]
  }

  /** How far the head has moved by then. */
  function CostAt(reqs: seq<int>, start: int, o: seq<nat>, n: nat): nat
    requires Fit(reqs, o) && n <= |o|
  {
    if n == 0 then 0
    else CostAt(reqs, start, o, n - 1) + Dist(reqs[o[n - 1]], PosAt(reqs, start, o, n - 1))
  }

  /** The lowest and the highest cylinder visited by then. */
  function LoAt(reqs: seq<int>, start: int, o: seq<nat>, n: nat): int
    requires Fit(reqs, o) && n <= |o|
  {
    if n == 0 then start
    else
      var l := LoAt(reqs, start, o, n - 1);
      if reqs[o[n - 1]] < l then reqs[o[n - 1]] else l
  }

  function HiAt(reqs: seq<int>, start: int, o: seq<nat>, n: nat): int
    requires Fit(reqs, o) && n <= |o|
  {
    if n == 0 then start
    else
      var h := HiAt(reqs, start, o, n - 1);
      if reqs[o[n - 1]] > h then reqs[o[n - 1]] else h
  }

  function Pos(reqs: seq<int>, start: int, o: seq<nat>): int
    requires Fit(reqs, o)
  {
    PosAt(reqs, start, o, |o|)
  }

  function Cost(reqs: seq<int>, start: int, o: seq<nat>): nat
    requires Fit(reqs, o)
  {
    CostAt(reqs, start, o, |o|)
  }

  function Lo(reqs: seq<int>, start: int, o: seq<nat>): int
    requires Fit(reqs, o)
  {
    LoAt(reqs, start, o, |o|)
  }

  function Hi(reqs: seq<int>, start: int, o: seq<nat>): int
    requires Fit(reqs, o)
  {
    HiAt(reqs, start, o, |o|)
  }

  lemma {:induction false} Longer(reqs: seq<int>, start: int, o: seq<nat>, o': seq<nat>, n: nat)
    requires Fit(reqs, o) && Fit(reqs, o') && n <= |o| && o <= o'
    ensures CostAt(reqs, start, o', n) == CostAt(reqs, start, o, n) && PosAt(reqs, start, o', n) == PosAt(reqs, start, o, n)
    ensures LoAt(reqs, start, o', n) == LoAt(reqs, start, o, n) && HiAt(reqs, start, o', n) == HiAt(reqs, start, o, n)
  {
    if n > 0 {
      Longer(reqs, start, o, o', n - 1);
    }
  }

  lemma ServeNext(reqs: seq<int>, start: int, o: seq<nat>, k: nat)
    requires Fit(reqs, o) && k < |reqs|
    ensures var o', x := o + [k], reqs[k]; var lo, hi := Lo(reqs, start, o), Hi(reqs, start, o);
      && Pos(reqs, start, o') == x
      && Cost(reqs, start, o') == Cost(reqs, start, o) + Dist(x, Pos(reqs, start, o))
      && Lo(reqs, start, o') == (if x < lo then x else lo)
      && Hi(reqs, start, o') == (if x > hi then x else hi)
  {
    Longer(reqs, start, o, o + [k], |o|);
  }

  // ----- Shortest seek time first -----

  /** The first of the nearest requests among the first `m` that are not in `o`; -1 if none is in reach. */
  function Closest(reqs: seq<int>, o: seq<nat>, pos: int, m: nat): (k: int)
    requires m <= |reqs|
    ensures -1 <= k < m
    ensures k >= 0 ==> k !in o && Dist(reqs[k], pos) <= CYLINDERS
    ensures forall j: nat :: j < m && j !in o ==>
      if k < 0 then Dist(reqs[j], pos) > CYLINDERS
      else Dist(reqs[j], pos) >= Dist(reqs[k], pos) && (j < k ==> Dist(reqs[j], pos) > Dist(reqs[k], pos))
  {
    if m == 0 then -1
    else
      var k := Closest(reqs, o, pos, m - 1);
      var d := if k < 0 then CYLINDERS + 1 else Dist(reqs[k], pos);
      if m - 1 !in o && Dist(reqs[m - 1], pos) < d then m - 1 else k
  }

  /** The order after `n` rounds. */
  function SstfOrder(reqs: seq<int>, start: int, n: nat): (o: seq<nat>)
    ensures Fit(reqs, o) && Distinct(o) && |o| <= n
  {
    if n == 0 then []
    else
      var o := SstfOrder(reqs, start, n - 1);
      var k := Closest(reqs, o, Pos(reqs, start, o), |reqs|);
      if k < 0 then o else o + [k]
  }

  /** Which requests are served. */
  ghost predicate Marked(served: seq<bool>, o: seq<nat>) {
    forall j :: 0 <= j < |served| ==> (served[j] <==> j in o)
  }

  lemma MarkNext(served: seq<bool>, o: seq<nat>, k: nat)
    requires Marked(served, o) && k < |served|
    ensures Marked(served[k := true], o + [k])
  {
  }

  method FindClosest(requests: array<int>, served: array<bool>, currentPosition: int, ghost o: seq<nat>)
    returns (closestIndex: int, closestDistance: int)
    requires served.Length == requests.Length && Marked(served[..], o)
    ensures closestIndex == Closest(requests[..], o, currentPosition, requests.Length)
    ensures closestIndex >= 0 ==> closestDistance == Dist(requests[closestIndex], currentPosition)
  {
    closestIndex := -1;
    closestDistance := CYLINDERS + 1;
    for j := 0 to requests.Length
      invariant closestIndex == Closest(requests[..], o, currentPosition, j)
      invariant closestDistance == if closestIndex < 0 then CYLINDERS + 1 else Dist(requests[closestIndex], currentPosition)
    {
      if !served[j] {
        var distance := Dist(requests[j], currentPosition);
        if distance < closestDistance {
          closestDistance := distance;
          closestIndex := j;
        }
      }
    }
  }

  /** The state of the outer loop after `n` rounds. */
  ghost predicate After(reqs: seq<int>, start: int, n: nat, o: seq<nat>, total: int, pos: int) {
    o == SstfOrder(reqs, start, n) && total == Cost(reqs, start, o) && pos == Pos(reqs, start, o)
  }

  lemma NextRound(reqs: seq<int>, start: int, n: nat, o: seq<nat>, total: int, pos: int, k: int)
    requires After(reqs, start, n, o, total, pos) && k == Closest(reqs, o, pos, |reqs|)
    ensures k < 0 ==> After(reqs, start, n + 1, o, total, pos)
    ensures k >= 0 ==> After(reqs, start, n + 1, o + [k], total + Dist(reqs[k], pos), reqs[k])
  {
    if k >= 0 { ServeNext(reqs, start, o, k); }
  }

  lemma NoRounds(reqs: seq<int>, start: int)
    ensures After(reqs, start, 0, [], 0, start)
  {
  }

  method Sstf(requests: array<int>, initialPosition: int) returns (total: int)
    ensures total == Cost(requests[..], initialPosition, SstfOrder(requests[..], initialPosition, requests.Length))
  {
    hide SstfOrder, Closest;
    var n := requests.Length;
    ghost var reqs := requests[..];
    ghost var o: seq<nat> := [];
    total := 0;
    var currentPosition := initialPosition;
    NoRounds(reqs, initialPosition);
    var served := new bool[n](_ => false);
    for i := 0 to n
      invariant requests[..] == reqs && Marked(served[..], o) == true
      invariant After(reqs, initialPosition, i, o, total, currentPosition) == true
    {
      var closestIndex, closestDistance := FindClosest(requests, served, currentPosition, o);
      NextRound(reqs, initialPosition, i, o, total, currentPosition, closestIndex);
      if closestIndex != -1 {
        total := total + closestDistance;
        currentPosition := requests[closestIndex];
        MarkNext(served[..], o, closestIndex);
        served[closestIndex] := true;
        o := o + [closestIndex];
      }
    }
  }

  /**
   What holds after every round. The unserved requests lie outside the visited range (or where the
   head is), and those beyond its far end are at least as far away as the head has moved so far.
   */
  ghost predicate RoundOk(reqs: seq<int>, start: int, o: seq<nat>)
    requires Fit(reqs, o)
  {
    var pos, lo, hi, cost := Pos(reqs, start, o), Lo(reqs, start, o), Hi(reqs, start, o), Cost(reqs, start, o);
    && (lo == pos || pos == hi) && lo <= start <= hi && lo <= pos <= hi
    && cost <= 2 * (hi - lo)
    && (forall j: nat :: j < |reqs| && j !in o ==> OutsideAt(reqs, pos, lo, hi, j))
    && (forall j: nat :: j < |reqs| && j !in o ==> FarAt(reqs, pos, lo, hi, cost, j))
  }

  predicate OutsideAt(reqs: seq<int>, pos: int, lo: int, hi: int, j: nat)
    requires j < |reqs|
  {
    reqs[j] < lo || reqs[j] > hi || reqs[j] == pos
  }

  predicate FarAt(reqs: seq<int>, pos: int, lo: int, hi: int, cost: int, j: nat)
    requires j < |reqs|
  {
    && (pos == hi && reqs[j] < lo ==> pos - reqs[j] >= cost)
    && (pos == lo && reqs[j] > hi ==> reqs[j] - pos >= cost)
  }

  lemma RoundKeeps(reqs: seq<int>, start: int, o: seq<nat>, k: nat)
    requires Fit(reqs, o) && RoundOk(reqs, start, o)
    requires k == Closest(reqs, o, Pos(reqs, start, o), |reqs|)
    ensures RoundOk(reqs, start, o + [k])
  {
    var o' := o + [k];
    ServeNext(reqs, start, o, k);
    var pos, lo, hi := Pos(reqs, start, o), Lo(reqs, start, o), Hi(reqs, start, o);
    assert OutsideAt(reqs, pos, lo, hi, k) && FarAt(reqs, pos, lo, hi, Cost(reqs, start, o), k);
    forall j: nat | j < |reqs| && j !in o'
      ensures OutsideAt(reqs, Pos(reqs, start, o'), Lo(reqs, start, o'), Hi(reqs, start, o'), j)
      ensures FarAt(reqs, Pos(reqs, start, o'), Lo(reqs, start, o'), Hi(reqs, start, o'), Cost(reqs, start, o'), j)
    {
      assert OutsideAt(reqs, pos, lo, hi, j) && FarAt(reqs, pos, lo, hi, Cost(reqs, start, o), j);
    }
  }

  lemma {:induction false} RoundsOk(reqs: seq<int>, start: int, n: nat)
    ensures RoundOk(reqs, start, SstfOrder(reqs, start, n))
  {
    if n > 0 {
      RoundsOk(reqs, start, n - 1);
      var o := SstfOrder(reqs, start, n - 1);
      var k := Closest(reqs, o, Pos(reqs, start, o), |reqs|);
      if k >= 0 { RoundKeeps(reqs, start, o, k); }
    }
  }

  /** The head never passes over a request without serving it. */
  lemma NoneLeftBehind(reqs: seq<int>, start: int, n: nat, j: nat)
    requires j < |reqs| && j !in SstfOrder(reqs, start, n)
    ensures var o := SstfOrder(reqs, start, n); !(Lo(reqs, start, o) < reqs[j] < Hi(reqs, start, o))
  {
    RoundsOk(reqs, start, n);
    var o := SstfOrder(reqs, start, n);
    assert OutsideAt(reqs, Pos(reqs, start, o), Lo(reqs, start, o), Hi(reqs, start, o), j);
  }

  // ----- What is served -----

  predicate OnDisk(reqs: seq<int>) {
    forall j :: 0 <= j < |reqs| ==> 0 <= reqs[j] < CYLINDERS
  }

  ghost predicate InReach(reqs: seq<int>, start: int) {
    exists j: nat :: j < |reqs| && Dist(reqs[j], start) <= CYLINDERS
  }

  lemma {:induction false} AllPlaces(o: seq<nat>, n: nat)
    requires Distinct(o) && |o| == n && forall i :: 0 <= i < |o| ==> o[i] < n
    ensures forall j: nat :: j < n ==> j in o
  {
    forall j: nat | j < n
      ensures j in o
    {
      if j !in o { Fits(o + [j], n); }
    }
  }

  lemma {:induction false} OneEachRound(reqs: seq<int>, start: int, n: nat)
    requires OnDisk(reqs) && InReach(reqs, start) && n <= |reqs|
    ensures |SstfOrder(reqs, start, n)| == n
  {
    if n > 0 {
      OneEachRound(reqs, start, n - 1);
      var o := SstfOrder(reqs, start, n - 1);
      if n == 1 {
        var j: nat :| j < |reqs| && Dist(reqs[j], start) <= CYLINDERS;
        assert o == [] && j !in o;
        hide Dist, InReach;
      } else {
        SomeUnserved(o, |reqs|);
      }
    }
  }

  lemma SomeUnserved(o: seq<nat>, n: nat)
    requires Distinct(o) && |o| < n
    ensures exists j: nat :: j < n && j !in o
  {
    if forall j: nat :: j < n ==> j in o {
      var all := seq(n, i requires 0 <= i < n => i);
      Onto(all, o);
    }
  }

  /** Distinct values that all occur in `o` are no more than `o` is long. */
  lemma {:induction false} Onto(q: seq<nat>, o: seq<nat>)
    requires Distinct(q) && forall i :: 0 <= i < |q| ==> q[i] in o
    ensures |q| <= |o|
    decreases |q|
  {
    if q != [] {
      var k :| 0 <= k < |o| && o[k] == q[0];
      var rest := q[1..];
      forall i | 0 <= i < |rest|
        ensures rest[i] in Without(o, k)
      {
        var m :| 0 <= m < |o| && o[m] == q[i + 1];
        assert Without(o, k)[if m < k then m else m - 1] == o[m];
      }
      Onto(rest, Without(o, k));
    }
  }

  lemma {:induction false} NoneInReach(reqs: seq<int>, start: int, n: nat)
    requires !InReach(reqs, start)
    ensures SstfOrder(reqs, start, n) == []
  {
    if n > 0 {
      NoneInReach(reqs, start, n - 1);
    }
  }

  /** Each request is served exactly once, unless the head starts out of reach of all of them: then none is. */
  lemma ServedIffInReach(reqs: seq<int>, start: int)
    requires OnDisk(reqs) && reqs != []
    ensures Serves(reqs, SstfOrder(reqs, start, |reqs|)) <==> InReach(reqs, start)
    ensures !InReach(reqs, start) ==> SstfOrder(reqs, start, |reqs|) == []
  {
    var o := SstfOrder(reqs, start, |reqs|);
    if InReach(reqs, start) {
      OneEachRound(reqs, start, |reqs|);
      AllPlaces(o, |reqs|);
    } else {
      NoneInReach(reqs, start, |reqs|);
      assert 0 !in o;
    }
  }

  /** An input on which nothing is served: all requests on the last cylinder, the start below the first. */
  lemma OutOfReach()
    ensures var reqs := seq(1000, i => CYLINDERS - 1);
      OnDisk(reqs) && SstfOrder(reqs, -2, |reqs|) == [] && !Serves(reqs, SstfOrder(reqs, -2, |reqs|))
  {
    ServedIffInReach(seq(1000, i => CYLINDERS - 1), -2);
  }

  // ----- How good it is -----

  /** The lowest and highest request, as places in the list. */
  ghost predicate IsMin(reqs: seq<int>, a: nat) {
    a < |reqs| && forall j :: 0 <= j < |reqs| ==> reqs[a] <= reqs[j]
  }

  ghost predicate IsMax(reqs: seq<int>, b: nat) {
    b < |reqs| && forall j :: 0 <= j < |reqs| ==> reqs[j] <= reqs[b]
  }

  /** The range of the start and all requests. */
  function Span(reqs: seq<int>, start: int, a: nat, b: nat): int
    requires a < |reqs| && b < |reqs|
  {
    (if reqs[b] > start then reqs[b] else start) - (if reqs[a] < start then reqs[a] else start)
  }

  /** The least any order can cost: to the nearer end, then across. */
  function Least(reqs: seq<int>, start: int, a: nat, b: nat): int
    requires a < |reqs| && b < |reqs|
  {
    var d, e := Dist(start, reqs[a]), Dist(start, reqs[b]);
    reqs[b] - reqs[a] + if d < e then d else e
  }

  lemma {:induction false} RangeIsRequests(reqs: seq<int>, start: int, o: seq<nat>, n: nat, a: nat, b: nat)
    requires Fit(reqs, o) && n <= |o| && IsMin(reqs, a) && IsMax(reqs, b)
    ensures LoAt(reqs, start, o, n) >= (if reqs[a] < start then reqs[a] else start)
    ensures HiAt(reqs, start, o, n) <= (if reqs[b] > start then reqs[b] else start)
  {
    if n > 0 {
      RangeIsRequests(reqs, start, o, n - 1, a, b);
    }
  }

  /** Between two moments the head moves at least the way between its places. */
  lemma {:induction false} CostBetween(reqs: seq<int>, start: int, o: seq<nat>, i: nat, j: nat)
    requires Fit(reqs, o) && i <= j <= |o|
    ensures CostAt(reqs, start, o, j) >= CostAt(reqs, start, o, i) + Dist(PosAt(reqs, start, o, j), PosAt(reqs, start, o, i))
    decreases j - i
  {
    if i < j {
      CostBetween(reqs, start, o, i, j - 1);
    }
  }

  /** No order that serves the lowest and the highest request is cheaper. */
  lemma NothingCheaper(reqs: seq<int>, start: int, o: seq<nat>, a: nat, b: nat)
    requires Fit(reqs, o) && IsMin(reqs, a) && IsMax(reqs, b) && a in o && b in o
    ensures Cost(reqs, start, o) >= Least(reqs, start, a, b)
  {
    var i :| 0 <= i < |o| && o[i] == a;
    var j :| 0 <= j < |o| && o[j] == b;
    if i <= j { ByWayOf(reqs, start, o, i, j); } else { ByWayOf(reqs, start, o, j, i); }
  }

  lemma ByWayOf(reqs: seq<int>, start: int, o: seq<nat>, i: nat, j: nat)
    requires Fit(reqs, o) && i <= j < |o|
    ensures Cost(reqs, start, o) >= Dist(reqs[o[i]], start) + Dist(reqs[o[j]], reqs[o[i]])
  {
    CostBetween(reqs, start, o, 0, i + 1);
    CostBetween(reqs, start, o, i + 1, j + 1);
    CostBetween(reqs, start, o, j + 1, |o|);
  }

  /** The head moves at most twice over the range. */
  lemma SstfTwiceTheSpan(reqs: seq<int>, start: int, a: nat, b: nat)
    requires IsMin(reqs, a) && IsMax(reqs, b)
    ensures Cost(reqs, start, SstfOrder(reqs, start, |reqs|)) <= 2 * Span(reqs, start, a, b)
  {
    RoundsOk(reqs, start, |reqs|);
    var o := SstfOrder(reqs, start, |reqs|);
    RangeIsRequests(reqs, start, o, |o|, a, b);
  }

  /** Shortest seek time first costs at most twice what any order that serves everything costs. */
  lemma SstfTwoCompetitive(reqs: seq<int>, start: int, o: seq<nat>)
    requires reqs != [] && Serves(reqs, o)
    ensures Cost(reqs, start, SstfOrder(reqs, start, |reqs|)) <= 2 * Cost(reqs, start, o)
  {
    var a, b := Extremes(reqs);
    SstfTwiceTheSpan(reqs, start, a, b);
    NothingCheaper(reqs, start, o, a, b);
  }

  lemma {:induction false} Extremes(reqs: seq<int>) returns (a: nat, b: nat)
    requires reqs != []
    ensures IsMin(reqs, a) && IsMax(reqs, b)
  {
    if |reqs| == 1 {
      a, b := 0, 0;
    } else {
      var m := |reqs| - 1;
      var rest := reqs[..m];
      a, b := Extremes(rest);
      assert forall j :: 0 <= j < |reqs| ==> j == m || reqs[j] == rest[j];
      if reqs[m] < reqs[a] { a := m; }
      if reqs[m] > reqs[b] { b := m; }
    }
  }

  // ----- First come first served, and the upward sweep -----

  function InTurn(n: nat): (o: seq<nat>)
    ensures |o| == n && forall i :: 0 <= i < n ==> o[i] == i
  {
    seq(n, i requires 0 <= i < n => i)
  }

  method Fcfs(requests: array<int>, initialPosition: int) returns (total: int)
    ensures total == Cost(requests[..], initialPosition, InTurn(requests.Length))
  {
    total := 0;
    var currentPosition := initialPosition;
    for i := 0 to requests.Length
      invariant total == Cost(requests[..], initialPosition, InTurn(i))
      invariant currentPosition == Pos(requests[..], initialPosition, InTurn(i))
    {
      assert InTurn(i + 1) == InTurn(i) + [i];
      ServeNext(requests[..], initialPosition, InTurn(i), i);
      total := total + Dist(requests[i], currentPosition);
      currentPosition := requests[i];
    }
  }

  ghost predicate Ascending(s: seq<int>) {
    forall i, j :: 0 <= i <= j < |s| ==> s[i] <= s[j]
  }

  function Insert(s: seq<int>, x: int): (r: seq<int>)
    requires Ascending(s)
    ensures Ascending(r) && multiset(r) == multiset(s) + multiset{x}
  {
    if s == [] || s[|s| - 1] <= x then s + [x]
    else
      var front, last := s[..|s| - 1], s[|s| - 1];
      var r := Insert(front, x);
      Joined(s, r, x);
      r + [last]
  }

  lemma Joined(s: seq<int>, r: seq<int>, x: int)
    requires Ascending(s) && Ascending(r) && s != [] && x < s[|s| - 1]
    requires multiset(r) == multiset(s[..|s| - 1]) + multiset{x}
    ensures Ascending(r + [s[|s| - 1]]) && multiset(r + [s[|s| - 1]]) == multiset(s) + multiset{x}
  {
    var last := s[|s| - 1];
    assert s == s[..|s| - 1] + [last];
    forall i | 0 <= i < |r|
      ensures r[i] <= last
    {
      assert r[i] in multiset(r);
    }
  }

  /** A sorted copy: what the library's `qsort` makes of a list of integers. */
  function Sorted(s: seq<int>): (r: seq<int>)
    ensures Ascending(r) && multiset(r) == multiset(s)
  {
    if s == [] then []
    else
      assert s == s[..|s| - 1] + [s[|s| - 1]];
      Insert(Sorted(s[..|s| - 1]), s[|s| - 1])
  }

  method Optimal(requests: array<int>, initialPosition: int) returns (total: int)
    ensures requests.Length == 0 ==> total == 0
    ensures forall a: nat, b: nat :: IsMin(requests[..], a) && IsMax(requests[..], b) ==>
      total == Sweep(requests[..], initialPosition, a, b)
  {
    var list := Sorted(requests[..]);
    SameLength(requests[..], list);
    total := 0;
    var currentPosition := initialPosition;
    for i := 0 to requests.Length
      invariant total == Cost(list, initialPosition, InTurn(i))
      invariant currentPosition == Pos(list, initialPosition, InTurn(i))
    {
      assert InTurn(i + 1) == InTurn(i) + [i];
      ServeNext(list, initialPosition, InTurn(i), i);
      total := total + Dist(list[i], currentPosition);
      currentPosition := list[i];
    }
    if |list| > 0 {
      AscendingCost(list, initialPosition, InTurn(|list|), |list|);
      SameEnds(requests[..], list);
    }
  }

  lemma SameLength(s: seq<int>, r: seq<int>)
    requires multiset(s) == multiset(r)
    ensures |s| == |r|
  {
    assert |multiset(s)| == |s| && |multiset(r)| == |r|;
  }

  /** To the lowest request, then up to the highest. */
  function Sweep(reqs: seq<int>, start: int, a: nat, b: nat): int
    requires a < |reqs| && b < |reqs|
  {
    Dist(start, reqs[a]) + reqs[b] - reqs[a]
  }

  /** An order that goes up costs the way to its first request and from there to its last. */
  lemma {:induction false} AscendingCost(reqs: seq<int>, start: int, o: seq<nat>, n: nat)
    requires Fit(reqs, o) && 0 < n <= |o| && forall i, j :: 0 <= i <= j < |o| ==> reqs[o[i]] <= reqs[o[j]]
    ensures CostAt(reqs, start, o, n) == Dist(start, reqs[o[0]]) + reqs[o[n - 1]] - reqs[o[0]]
  {
    if n > 1 {
      AscendingCost(reqs, start, o, n - 1);
    }
  }

  /** The ends of a sorted copy are the extremes of the original. */
  lemma SameEnds(reqs: seq<int>, s: seq<int>)
    requires multiset(reqs) == multiset(s) && Ascending(s) && s != []
    ensures forall a: nat, b: nat :: IsMin(reqs, a) && IsMax(reqs, b) ==> reqs[a] == s[0] && reqs[b] == s[|s| - 1]
  {
    forall a: nat, b: nat | IsMin(reqs, a) && IsMax(reqs, b)
      ensures reqs[a] == s[0] && reqs[b] == s[|s| - 1]
    {
      InBoth(reqs, s, reqs[a]);
      InBoth(reqs, s, reqs[b]);
      InBoth(s, reqs, s[0]);
      InBoth(s, reqs, s[|s| - 1]);
    }
  }

  lemma InBoth(s: seq<int>, r: seq<int>, x: int)
    requires multiset(s) == multiset(r) && x in s
    ensures x in r
  {
    assert x in multiset(s);
  }

  /** There is an order that goes up. */
  lemma {:induction false} AscendingOrder(reqs: seq<int>) returns (o: seq<nat>)
    ensures Serves(reqs, o)
    ensures forall i, j :: 0 <= i <= j < |o| ==> reqs[o[i]] <= reqs[o[j]]
  {
    if reqs == [] {
      o := [];
    } else {
      var m := |reqs| - 1;
      var q := AscendingOrder(reqs[..m]);
      var k := 0;
      while k < |q| && reqs[q[k]] <= reqs[m]
        invariant k <= |q| && forall i :: 0 <= i < k ==> reqs[q[i]] <= reqs[m]
      {
        k := k + 1;
      }
      PutLast(reqs, q, k);
      o := q[..k] + [m] + q[k..];
    }
  }

  /** The last request is put in its place. */
  lemma PutLast(reqs: seq<int>, q: seq<nat>, k: nat)
    requires reqs != [] && Serves(reqs[..|reqs| - 1], q) && k <= |q|
    requires forall i, j :: 0 <= i <= j < |q| ==> reqs[q[i]] <= reqs[q[j]]
    requires forall i :: 0 <= i < k ==> reqs[q[i]] <= reqs[|reqs| - 1]
    requires k < |q| ==> reqs[q[k]] > reqs[|reqs| - 1]
    ensures var o := q[..k] + [|reqs| - 1] + q[k..];
      Serves(reqs, o) && forall i, j :: 0 <= i <= j < |o| ==> reqs[o[i]] <= reqs[o[j]]
  {
    var m := |reqs| - 1;
    var o := q[..k] + [m] + q[k..];
    assert forall i :: 0 <= i < |o| ==> o[i] == if i < k then q[i] else if i == k then m else q[i - 1];
    forall j: nat | j < |reqs|
      ensures j in o
    {
      if j < m {
        assert j in q;
        var i :| 0 <= i < |q| && q[i] == j;
        assert o[if i < k then i else i + 1] == j;
      } else {
        assert o[k] == m;
      }
    }
  }

  function Mirror(reqs: seq<int>): (m: seq<int>)
    ensures |m| == |reqs| && forall i :: 0 <= i < |m| ==> m[i] == -reqs[i]
  {
    seq(|reqs|, i requires 0 <= i < |reqs| => -reqs[i])
  }

  lemma {:induction false} MirrorCost(reqs: seq<int>, start: int, o: seq<nat>, n: nat)
    requires Fit(reqs, o) && n <= |o|
    ensures CostAt(Mirror(reqs), -start, o, n) == CostAt(reqs, start, o, n)
  {
    if n > 0 {
      MirrorCost(reqs, start, o, n - 1);
    }
  }

  /** There are orders that cost the sweep upwards, and the sweep downwards. */
  lemma SweepsExist(reqs: seq<int>, start: int, a: nat, b: nat) returns (up: seq<nat>, down: seq<nat>)
    requires IsMin(reqs, a) && IsMax(reqs, b)
    ensures Serves(reqs, up) && Cost(reqs, start, up) == Sweep(reqs, start, a, b)
    ensures Serves(reqs, down) && Cost(reqs, start, down) == Dist(start, reqs[b]) + reqs[b] - reqs[a]
  {
    up := AscendingOrder(reqs);
    assert a in up;
    AscendingCost(reqs, start, up, |up|);
    EndsOf(reqs, up, a, b);
    var m := Mirror(reqs);
    down := AscendingOrder(m);
    assert a in down;
    AscendingCost(m, -start, down, |down|);
    assert IsMin(m, b) && IsMax(m, a);
    EndsOf(m, down, b, a);
    MirrorCost(reqs, start, down, |down|);
  }

  lemma EndsOf(reqs: seq<int>, o: seq<nat>, a: nat, b: nat)
    requires IsMin(reqs, a) && IsMax(reqs, b) && Serves(reqs, o)
    requires forall i, j :: 0 <= i <= j < |o| ==> reqs[o[i]] <= reqs[o[j]]
    ensures o != [] && reqs[o[0]] == reqs[a] && reqs[o[|o| - 1]] == reqs[b]
  {
    assert a in o && b in o;
  }

  /** The upward sweep is the cheapest of all orders exactly when the lowest request is the nearer end, or all are in one place. */
  lemma SweepMinimalIff(reqs: seq<int>, start: int, a: nat, b: nat)
    requires IsMin(reqs, a) && IsMax(reqs, b)
    ensures (forall o :: Serves(reqs, o) ==> Sweep(reqs, start, a, b) <= Cost(reqs, start, o))
      <==> Dist(start, reqs[a]) <= Dist(start, reqs[b]) || reqs[a] == reqs[b]
  {
    var up, down := SweepsExist(reqs, start, a, b);
    forall o | Serves(reqs, o)
      ensures Cost(reqs, start, o) >= Least(reqs, start, a, b)
    {
      NothingCheaper(reqs, start, o, a, b);
    }
  }

  /** An input on which a cheaper order exists: one request at 0, all others at the start. */
  lemma SweepNotMinimal()
    ensures var reqs := seq(1000, i => if i == 0 then 0 else 10);
      && IsMin(reqs, 0) && IsMax(reqs, 1)
      && exists o :: Serves(reqs, o) && Cost(reqs, 10, o) < Sweep(reqs, 10, 0, 1)
  {
    var reqs := seq(1000, i => if i == 0 then 0 else 10);
    SweepMinimalIff(reqs, 10, 0, 1);
  }
}
