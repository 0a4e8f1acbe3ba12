/**
 The lottery scheduler: the run queues of the stock kernel, with a count of the tickets that the
 queued processes hold, and a draw that picks the next process by it.
 */
module Lottery {
  import opened Links
  import opened Sched

  const MAX_TICKETS: nat := 20

  // ----- Tickets on a queue -----

  /** A list of processes of a table of `n`. */
  predicate InTable(list: seq<nat>, n: nat) {
    forall i :: 0 <= i < |list| ==> list[i] < n
  }

  function Sum(list: seq<nat>, tickets: seq<nat>): nat
    requires InTable(list, |tickets|)
  {
    if list == [] then 0 else tickets[list[0]] + Sum(list[1..], tickets)
  }

  predicate Known(ready: seq<seq<nat>>, n: nat) {
    forall q :: 0 <= q < |ready| ==> InTable(ready[q], n)
  }

  /** The queued processes in the order of the walk, from queue `q` on. */
  function Order(ready: seq<seq<nat>>, q: nat): (r: seq<nat>)
    requires q <= |ready|
    decreases |ready| - q
  {
    if q == |ready| then [] else ready[q] + Order(ready, q + 1)
  }

  lemma {:induction false} OrderHolds(ready: seq<seq<nat>>, q: nat, p: nat)
    requires q <= |ready|
    ensures p in Order(ready, q) <==> exists r :: q <= r < |ready| && p in ready[r]
    decreases |ready| - q
  {
    if q < |ready| {
      OrderHolds(ready, q + 1, p);
      if p in ready[q] {
        assert p in Order(ready, q);
      } else if p in Order(ready, q + 1) {
        var r :| q + 1 <= r < |ready| && p in ready[r];
      }
    }
  }

  lemma {:induction false} OrderKnown(ready: seq<seq<nat>>, q: nat, n: nat)
    requires q <= |ready| && Known(ready, n)
    ensures InTable(Order(ready, q), n)
    decreases |ready| - q
  {
    if q < |ready| { OrderKnown(ready, q + 1, n); }
  }

  /** The tickets of the processes queued from queue `q` on. */
  function Held(ready: seq<seq<nat>>, tickets: seq<nat>, q: nat): nat
    requires q <= |ready| && Known(ready, |tickets|)
    decreases |ready| - q
  {
    if q == |ready| then 0 else Sum(ready[q], tickets) + Held(ready, tickets, q + 1)
  }

  lemma {:induction false} SumOfBoth(a: seq<nat>, b: seq<nat>, tickets: seq<nat>)
    requires InTable(a + b, |tickets|)
    ensures InTable(a, |tickets|) && InTable(b, |tickets|)
    ensures Sum(a + b, tickets) == Sum(a, tickets) + Sum(b, tickets)
  {
    assert forall i :: 0 <= i < |a| ==> (a + b)[i] == a[i];
    assert forall i :: 0 <= i < |b| ==> (a + b)[|a| + i] == b[i];
    if a == [] {
      assert a + b == b;
    } else {
      assert (a + b)[1..] == a[1..] + b;
      SumOfBoth(a[1..], b, tickets);
    }
  }

  lemma {:induction false} HeldInOrder(ready: seq<seq<nat>>, tickets: seq<nat>, q: nat)
    requires q <= |ready| && Known(ready, |tickets|)
    ensures InTable(Order(ready, q), |tickets|)
    ensures Held(ready, tickets, q) == Sum(Order(ready, q), tickets)
    decreases |ready| - q
  {
    OrderKnown(ready, q, |tickets|);
    if q < |ready| {
      HeldInOrder(ready, tickets, q + 1);
      SumOfBoth(ready[q], Order(ready, q + 1), tickets);
    }
  }

  lemma {:induction false} SumAfterRemove(list: seq<nat>, p: nat, tickets: seq<nat>)
    requires p in list && Distinct(list) && InTable(list, |tickets|)
    ensures InTable(Remove(list, p), |tickets|)
    ensures Sum(Remove(list, p), tickets) == Sum(list, tickets) - tickets[p]
  {
    RemoveOne(list, p);
    if list[0] != p {
      var rest := list[1..];
      assert forall i :: 0 <= i < |rest| ==> rest[i] == list[i + 1];
      SumAfterRemove(rest, p, tickets);
      var r := [list[0]] + Remove(rest, p);
      assert r[1..] == Remove(rest, p);
    }
  }

  /** Changing one queue changes what is held by the difference. */
  lemma {:induction false} HeldAfter(ready: seq<seq<nat>>, tickets: seq<nat>, q: nat, list: seq<nat>, r: nat)
    requires r <= |ready| && q < |ready| && Known(ready, |tickets|) && InTable(list, |tickets|)
    ensures Known(ready[q := list], |tickets|)
    ensures Held(ready[q := list], tickets, r) ==
      Held(ready, tickets, r) + if r <= q then Sum(list, tickets) - Sum(ready[q], tickets) else 0
    decreases |ready| - r
  {
    var ready' := ready[q := list];
    assert forall i :: 0 <= i < |ready| && i != q ==> ready'[i] == ready[i];
    if r < |ready| { HeldAfter(ready, tickets, q, list, r + 1); }
  }

  // ----- The draw -----

  /** The walk with ticket `n`: the first process at which the tickets passed reach `n`. */
  function Winner(order: seq<nat>, tickets: seq<nat>, n: int): int
    requires InTable(order, |tickets|)
  {
    if order == [] then -1
    else if tickets[order[0]] >= n then order[0]
    else Winner(order[1..], tickets, n - tickets[order[0]])
  }

  /** The tickets of the processes ahead of `p`. */
  function Ahead(order: seq<nat>, tickets: seq<nat>, p: nat): nat
    requires InTable(order, |tickets|)
  {
    if order == [] || order[0] == p then 0 else tickets[order[0]] + Ahead(order[1..], tickets, p)
  }

  lemma {:induction false} WinnerIsQueued(order: seq<nat>, tickets: seq<nat>, n: int)
    requires InTable(order, |tickets|)
    ensures var w := Winner(order, tickets, n);
      && (order != [] && n <= Sum(order, tickets) ==> w >= 0 && w in order)
      && (n > Sum(order, tickets) ==> w == -1)
  {
    if order != [] && tickets[order[0]] < n {
      WinnerIsQueued(order[1..], tickets, n - tickets[order[0]]);
      assert Sum(order, tickets) == tickets[order[0]] + Sum(order[1..], tickets);
    }
  }

  /** A process wins with the tickets that come after those of the processes ahead of it. */
  lemma {:induction false} WinsWith(order: seq<nat>, tickets: seq<nat>, p: nat, n: int)
    requires Distinct(order) && p in order && n >= 1 && InTable(order, |tickets|)
    ensures Winner(order, tickets, n) == p <==>
      Ahead(order, tickets, p) < n <= Ahead(order, tickets, p) + tickets[p]
  {
    var t, rest := tickets[order[0]], order[1..];
    assert forall i :: 0 <= i < |rest| ==> rest[i] == order[i + 1];
    if order[0] == p {
      if n > t {
        WinnerIsQueued(rest, tickets, n - t);
        assert p !in rest;
        WinnerElsewhere(rest, tickets, n - t, p);
      }
    } else if n > t {
      WinsWith(rest, tickets, p, n - t);
    }
  }

  lemma {:induction false} WinnerElsewhere(order: seq<nat>, tickets: seq<nat>, n: int, p: nat)
    requires p !in order && InTable(order, |tickets|)
    ensures Winner(order, tickets, n) != p
  {
    if order != [] && tickets[order[0]] < n { WinnerElsewhere(order[1..], tickets, n - tickets[order[0]], p); }
  }

  lemma {:induction false} AheadFits(order: seq<nat>, tickets: seq<nat>, p: nat)
    requires p in order && InTable(order, |tickets|)
    ensures Ahead(order, tickets, p) + tickets[p] <= Sum(order, tickets)
  {
    if order[0] != p { AheadFits(order[1..], tickets, p); }
  }

  function Interval(a: nat, b: nat): set<nat> {
    if a >= b then {} else Interval(a, b - 1) + {b}
  }

  lemma {:induction false} IntervalIs(a: nat, b: nat)
    requires a <= b
    ensures |Interval(a, b)| == b - a && forall n :: n in Interval(a, b) <==> a < n <= b
  {
    if a < b { IntervalIs(a, b - 1); }
  }

  /** The draws among `1..total` with which `p` wins. */
  ghost function Draws(order: seq<nat>, tickets: seq<nat>, p: nat, total: int): set<nat>
    requires InTable(order, |tickets|)
  {
    set n: nat | 1 <= n <= total && Winner(order, tickets, n) == p
  }

  /**
   The exact share: of the draws `1..total` each queued process wins as many as it holds tickets, less
   those of its tickets that lie beyond the total.
   */
  lemma ExactShare(order: seq<nat>, tickets: seq<nat>, p: nat, total: int)
    requires Distinct(order) && p in order && InTable(order, |tickets|)
    ensures |Draws(order, tickets, p, total)| ==
      var a := Ahead(order, tickets, p);
      if total <= a then 0 else if total < a + tickets[p] then total - a else tickets[p]
  {
    var a := Ahead(order, tickets, p);
    var b := if total <= a then a else if total < a + tickets[p] then total else a + tickets[p];
    forall n: nat
      ensures n in Draws(order, tickets, p, total) <==> a < n <= b
    {
      if 1 <= n { WinsWith(order, tickets, p, n); }
    }
    IntervalIs(a, b);
    assert Draws(order, tickets, p, total) == Interval(a, b);
  }

  /** No draw is lost: each goes to a queued process. */
  lemma EveryDrawWins(order: seq<nat>, tickets: seq<nat>, n: nat)
    requires 1 <= n && InTable(order, |tickets|)
    ensures n <= Sum(order, tickets) <==> Winner(order, tickets, n) >= 0
    ensures n <= Sum(order, tickets) ==> Winner(order, tickets, n) in order
    ensures n > Sum(order, tickets) ==> Winner(order, tickets, n) == -1
  {
    WinnerIsQueued(order, tickets, n);
  }

  lemma {:induction false} OrderDistinct(s: State, q: nat)
    requires ReadyOk(s) && q <= NR_SCHED_QUEUES
    ensures Distinct(Order(s.ready, q))
    decreases NR_SCHED_QUEUES - q
  {
    if q < NR_SCHED_QUEUES {
      OrderDistinct(s, q + 1);
      var a, b := s.ready[q], Order(s.ready, q + 1);
      assert ReadyAt(s, q);
      forall p | p in a
        ensures p !in b
      {
        OrderHolds(s.ready, q + 1, p);
        forall r | q < r < NR_SCHED_QUEUES
          ensures p !in s.ready[r]
        {
          assert ReadyAt(s, r);
        }
      }
      forall i, j | 0 <= i < j < |a + b|
        ensures (a + b)[i] != (a + b)[j]
      {
        if i < |a| <= j { assert (a + b)[i] in a && (a + b)[j] in b; }
      }
    }
  }

  lemma {:induction false} RemovePlace(list: seq<nat>, p: nat, k: nat)
    requires k <= |list| && p !in list[..k] && (k < |list| ==> list[k] == p)
    ensures Remove(list, p) == if k < |list| then list[..k] + list[k + 1..] else list
  {
    if list != [] && k > 0 {
      var rest := list[1..];
      assert list[0] == list[..k][0];
      assert rest[..k - 1] == list[..k][1..];
      RemovePlace(rest, p, k - 1);
      if k < |list| { assert list[..k] + list[k + 1..] == [list[0]] + (rest[..k - 1] + rest[k..]); }
    }
  }

  /** What is held once `p` is off queue `q`. */
  lemma ChargeFor(ready: seq<seq<nat>>, tickets: seq<nat>, q: nat, p: nat)
    requires q < |ready| && Known(ready, |tickets|) && p < |tickets| && Distinct(ready[q])
    ensures var ready' := ready[q := Remove(ready[q], p)];
      && Known(ready', |tickets|)
      && Held(ready', tickets, 0) == Held(ready, tickets, 0) - if p in ready[q] then tickets[p] else 0
  {
    if p in ready[q] {
      SumAfterRemove(ready[q], p, tickets);
    } else {
      RemovePlace(ready[q], p, |ready[q]|);
    }
    HeldAfter(ready, tickets, q, Remove(ready[q], p), 0);
  }

  // ----- The ledger under ProcessSetPriority -----

  /** The new number of tickets of a process that holds `t`, and the change of the total. */
  function Renewed(t: nat, n: int): (nat, int) {
    if n > 0 then
      if n + t > MAX_TICKETS || t == MAX_TICKETS then (MAX_TICKETS, 0) else (t + n, n)
    else
      if t + n < 0 || t == 0 then (0, 0) else (t + n, n)
  }

  /** By how much the change throws the total off what the queues hold. */
  function Drift(t: nat, n: int, queued: bool): int {
    var (t', d) := Renewed(t, n);
    d - if queued then t' - t else 0
  }

  /**
   The total stays right exactly if the process is queued and its new number is not cut off at a bound,
   or it is not queued and the number is cut off or does not change.
   */
  lemma DriftIff(t: nat, n: int, queued: bool)
    requires t <= MAX_TICKETS
    ensures Drift(t, n, queued) == 0 <==>
      n == 0 || (n > 0 && t == MAX_TICKETS) || (n < 0 && t == 0) || (queued <==> 0 <= t + n <= MAX_TICKETS)
  {
  }

  /** The new number is the sum, brought within the bounds; the total moves only where nothing is cut off. */
  lemma RenewedClamps(t: nat, n: int)
    requires t <= MAX_TICKETS
    ensures var (t', d) := Renewed(t, n);
      && 0 <= t' <= MAX_TICKETS
      && (0 <= t + n <= MAX_TICKETS ==> t' == t + n && d == n)
      && (t + n < 0 ==> t' == 0 && d == 0) && (t + n > MAX_TICKETS ==> t' == MAX_TICKETS && d == 0)
  {
  }

  // ----- The ledger step by step -----

  /** The scheduler's state, the tickets of each process, and the running total. */
  datatype Ledger = Ledger(s: State, tickets: seq<nat>, total: int)

  ghost predicate Proper(l: Ledger) {
    ReadyOk(l.s) && |l.tickets| == |l.s.flags| && Known(l.s.ready, |l.tickets|)
  }

  /** What may happen: a flag or a priority changes, tickets are changed, or the next process is drawn. */
  datatype Action = Queue(ev: Event) | Renew(p: nat, n: int) | Draw(timeLeft: bool, random: nat)

  predicate Possible(l: Ledger, a: Action) {
    match a
    case Queue(ev) => !ev.Reschedule? && Enabled(l.s, ev)
    case Renew(p, _) => p < |l.s.flags|
    case Draw(_, _) => true
  }

  /** What taking `p` off its queue deducts. */
  function Counted(s: State, tickets: seq<nat>, p: nat): nat
    requires p < |s.flags| == |tickets|
  {
    if Runnable(s, p) then tickets[p] else 0
  }

  /** What clearing a flag of `p` adds: its tickets once it is queued, less those of a process that gives way to it. */
  function Gained(s: State, tickets: seq<nat>, p: nat, f: Rts): int
    requires WellFormed(s) && p < |s.flags| == |tickets|
  {
    if Runnable(s, p) || s.flags[p] - {f} != {} then 0
    else tickets[p] - if s.priority[s.cur] > s.priority[p] && s.preemptible[s.cur] then Counted(s, tickets, s.cur) else 0
  }

  /** By how much an event moves the total. */
  function Moved(s: State, tickets: seq<nat>, ev: Event): int
    requires WellFormed(s) && |tickets| == |s.flags| && Enabled(s, ev)
  {
    match ev
    case SetFlag(p, f) => 0 - Counted(s, tickets, p)
    case ClearFlag(p, f) => Gained(s, tickets, p, f)
    case NewPriority(p, priority) =>
      var u := if Runnable(s, p) then Set(s, p, NoQuantum) else s;
      Gained(u.(priority := u.priority[p := priority]), tickets, p, NoQuantum) - Counted(s, tickets, p)
    case Reschedule(_) => 0
  }

  /** The number drawn, from 1 to `total`. */
  function Ticket(total: int, random: nat): int
    requires total > 0
  {
    random % total + 1
  }

  /** The process drawn, or -1. */
  function Pick(ready: seq<seq<nat>>, tickets: seq<nat>, total: int, random: nat): int
    requires Known(ready, |tickets|)
  {
    OrderKnown(ready, 0, |tickets|);
    if total <= 0 then -1 else Winner(Order(ready, 0), tickets, Ticket(total, random))
  }

  /** A current process that may not go on is put back if it was preempted, and the next one is drawn. */
  function Drawn(l: Ledger, timeLeft: bool, random: nat): Ledger
    requires Proper(l)
  {
    if Runnable(l.s, l.s.cur) then l
    else
      PutBackKeeps(l.s, timeLeft);
      var u := PutBack(l.s, timeLeft);
      ReadyKnown(u);
      var t := l.total + if l.s.flags[l.s.cur] == {Preempted} then l.tickets[l.s.cur] else 0;
      var w := Pick(u.ready, l.tickets, t, random);
      Ledger(if w < 0 then u else u.(cur := w), l.tickets, t)
  }

  function Act(l: Ledger, a: Action): Ledger
    requires Proper(l) && Possible(l, a)
  {
    match a
    case Queue(ev) => Ledger(Apply(l.s, ev), l.tickets, l.total + Moved(l.s, l.tickets, ev))
    case Renew(p, n) =>
      var (t, d) := Renewed(l.tickets[p], n);
      Ledger(l.s, l.tickets[p := t], l.total + d)
    case Draw(timeLeft, random) => Drawn(l, timeLeft, random)
  }

  lemma ReadyKnown(s: State)
    requires ReadyOk(s)
    ensures Known(s.ready, |s.flags|)
  {
    forall q | 0 <= q < |s.ready|
      ensures InTable(s.ready[q], |s.flags|)
    {
      assert ReadyAt(s, q);
      assert forall i :: 0 <= i < |s.ready[q]| ==> s.ready[q][i] in s.ready[q];
    }
  }

  lemma OnItsQueue(s: State, p: nat)
    requires ReadyOk(s) && p < |s.flags|
    ensures WellFormed(s)
    ensures  Distinct(s.ready[s.priority[p]]) && (s.flags[p] == {} <==> p in s.ready[s.priority[p]])
  {
    assert ReadyAt(s, s.priority[p]);
  }

  /** The scheduler's part of the kernel. */
  class Scheduler {
    var flags: seq<set<Rts>>
    var priority: seq<nat>
    var preemptible: seq<bool>
    var ready: seq<seq<nat>>
    var cur: nat
    var tickets: seq<nat>
    var total: int

    function S(): State
      reads this
    {
      State(flags, priority, preemptible, ready, cur)
    }

    ghost function L(): Ledger
      reads this
    {
      Ledger(S(), tickets, total)
    }

    ghost predicate Queues()
      reads this
    {
      ReadyOk(S()) && |tickets| == |flags| && Known(ready, |tickets|)
    }

    /** How far the total is off what the queued processes hold. */
    ghost function Off(): int
      requires Known(ready, |tickets|)
      reads this
    {
      total - Held(ready, tickets, 0)
    }

    /** What holds also between a change of flags and the change of the queues that goes with it. */
    ghost predicate Fields()
      reads this
    {
      WellFormed(S()) && |tickets| == |flags| && Known(ready, |tickets|)
    }

    /** Take a process off its queue; its tickets are deducted whether it is there or not. */
    method Dequeue(p: nat)
      requires Fields() && p < |flags| && Distinct(ready[priority[p]])
      modifies this`ready, this`total
      ensures S() == Sched.Dequeue(old(S()), p) && total == old(total) - tickets[p]
      ensures Fields() && Off() == old(Off()) - if p in old(ready[priority[p]]) then 0 else tickets[p]
    {
      var q := priority[p];
      ghost var list := ready[q];
      var k := 0;
      while k < |ready[q]|
        invariant k <= |list| && p !in list[..k]
        invariant ready == old(ready) && total == old(total)
      {
        if ready[q][k] == p {
          ready := ready[q := ready[q][..k] + ready[q][k + 1..]];
          break;
        }
        k := k + 1;
      }
      RemovePlace(list, p, k);
      ChargeFor(old(ready), tickets, q, p);
      assert old(ready)[q := list] == old(ready);
      total := total - tickets[p];
    }

    /** Append a process to the queue of its priority, and preempt a worse current process. */
    method Enqueue(p: nat)
      requires Fields() && p < |flags| && Distinct(ready[priority[cur]]) && (p == cur ==> flags[p] == {})
      requires flags[cur] == {} ==> p == cur || cur in ready[priority[cur]]
      modifies this`ready, this`total, this`flags
      ensures S() == Sched.Enqueue(old(S()), p)
      ensures total == old(total) + tickets[p]
        - if priority[cur] > priority[p] && preemptible[cur] then old(Counted(S(), tickets, cur)) else 0
      ensures Fields() && Off() == old(Off())
    {
      var q := priority[p];
      HeldAfter(ready, tickets, q, ready[q] + [p], 0);
      SumOfBoth(ready[q], [p], tickets);
      ready := ready[q := ready[q] + [p]];
      if priority[cur] > q && preemptible[cur] {
        RtsSet(cur, Preempted);
      }
      total := total + tickets[p];
    }

    /** Set a flag, and take a process that was runnable off its queue. */
    method RtsSet(p: nat, f: Rts)
      requires Fields() && p < |flags| && Distinct(ready[priority[p]])
      modifies this`ready, this`total, this`flags
      ensures S() == Set(old(S()), p, f) && total == old(total) - old(Counted(S(), tickets, p))
      ensures Fields() && Off() == old(Off()) - if old(flags[p]) != {} || p in old(ready[priority[p]]) then 0 else tickets[p]
    {
      var was := flags[p];
      flags := flags[p := flags[p] + {f}];
      if was == {} {
        Dequeue(p);
      }
    }

    /** Clear a flag, and queue a process that becomes runnable. */
    method RtsUnset(p: nat, f: Rts)
      requires Queues() && p < |flags|
      modifies this`ready, this`total, this`flags
      ensures L() == Act(old(L()), Queue(ClearFlag(p, f)))
      ensures Queues() && Off() == old(Off())
    {
      hide ReadyOk, Held, Known;
      OnItsQueue(S(), p);
      OnItsQueue(S(), cur);
      UnsetKeeps(S(), p, f);
      var was := flags[p];
      flags := flags[p := flags[p] - {f}];
      if was != {} && flags[p] == {} {
        Enqueue(p);
      }
    }

    /** Block a process, in a state in which the queues are right. */
    method Block(p: nat, f: Rts)
      requires Queues() && p < |flags|
      modifies this`ready, this`total, this`flags
      ensures L() == Act(old(L()), Queue(SetFlag(p, f)))
      ensures Queues() && Off() == old(Off())
    {
      SetKeeps(S(), p, f);
      assert ReadyAt(S(), priority[p]);
      RtsSet(p, f);
    }

    /** Put a process at the front of its queue. */
    method EnqueueHead(p: nat)
      requires Fields() && p < |flags|
      modifies this`ready, this`total
      ensures S() == Sched.EnqueueHead(old(S()), p) && total == old(total) + tickets[p]
      ensures Fields() && Off() == old(Off())
    {
      var q := priority[p];
      HeldAfter(ready, tickets, q, [p] + ready[q], 0);
      SumOfBoth([p], ready[q], tickets);
      ready := ready[q := [p] + ready[q]];
      total := total + tickets[p];
    }

    /** Put back a current process that was preempted: at the front of its queue while it has time left. */
    method PutBackPreempted(timeLeft: bool)
      requires Queues() && flags[cur] != {}
      modifies this`ready, this`total, this`flags
      ensures S() == PutBack(old(S()), timeLeft)
      ensures total == old(total) + if old(flags[cur]) == {Preempted} then tickets[cur] else 0
      ensures Queues() && Off() == old(Off())
    {
      PutBackKeeps(S(), timeLeft);
      if Preempted in flags[cur] {
        assert ReadyAt(S(), priority[cur]);
        flags := flags[cur := flags[cur] - {Preempted}];
        if flags[cur] == {} {
          if timeLeft {
            EnqueueHead(cur);
          } else {
            Enqueue(cur);
          }
        }
      }
    }

    /** Give a process a new priority. */
    method SchedProc(p: nat, newPriority: nat)
      requires Queues() && p < |flags| && newPriority < NR_SCHED_QUEUES
      modifies this`ready, this`total, this`flags, this`priority
      ensures L() == Act(old(L()), Queue(NewPriority(p, newPriority)))
      ensures Queues() && Off() == old(Off())
    {
      SetPriorityKeeps(S(), p, newPriority);
      if flags[p] == {} {
        Block(p, NoQuantum);
      }
      NotQueued(S(), p, newPriority);
      priority := priority[p := newPriority];
      RtsUnset(p, NoQuantum);
    }

    /**
     Draw the next process; `random` is what the random number generator returns. The result is the
     queued process whose tickets the drawn number falls on; with a total that has drifted upwards the walk
     may come to the end of the queues.
     */
    method PickProc(random: nat) returns (r: int)
      requires Queues()
      ensures r == -1 <==> total <= 0 || random % total + 1 > Held(ready, tickets, 0)
      ensures r != -1 ==> 0 <= r < |flags| && flags[r] == {}
      ensures InTable(Order(ready, 0), |tickets|)
      ensures total > 0 ==> r == Winner(Order(ready, 0), tickets, random % total + 1)
    {
      hide Winner, Held, Order;
      HeldInOrder(ready, tickets, 0);
      if total <= 0 {
        return -1;
      }
      EveryDrawWins(Order(ready, 0), tickets, random % total + 1);
      r := Walk(random % total + 1);
      if r >= 0 { Queued(S(), r); }
    }

    /** Before returning to user mode: keep a runnable process, else put it back and draw; without a winner there is none to run. */
    method SwitchToUser(timeLeft: bool, random: nat) returns (found: bool)
      requires Queues()
      modifies this`ready, this`total, this`flags, this`cur
      ensures L() == Act(old(L()), Draw(timeLeft, random))
      ensures Queues() && Off() == old(Off())
      ensures found ==> flags[cur] == {}
    {
      if flags[cur] == {} {
        return true;
      }
      PutBackPreempted(timeLeft);
      var r := PickProc(random);
      found := r >= 0;
      if found {
        ghost var s := S();
        cur := r;
        SwitchedOk(s, r);
      }
    }

    /** Add up tickets from queue to queue until they reach the number chosen. */
    method Walk(chosen: nat) returns (r: int)
      requires Known(ready, |tickets|) && |ready| == NR_SCHED_QUEUES
      ensures InTable(Order(ready, 0), |tickets|)
      ensures r == Winner(Order(ready, 0), tickets, chosen)
    {
      OrderKnown(ready, 0, |tickets|);
      var sum, q := 0, 0;
      ghost var w := Winner(Order(ready, 0), tickets, chosen);
      while q < NR_SCHED_QUEUES
        invariant q <= NR_SCHED_QUEUES && InTable(Order(ready, q), |tickets|)
        invariant w == Winner(Order(ready, q), tickets, chosen - sum)
      {
        var k := 0;
        assert InTable(ready[q], |tickets|);
        while k < |ready[q]|
          invariant k <= |ready[q]| && InTable(ready[q][k..] + Order(ready, q + 1), |tickets|)
          invariant w == Winner(ready[q][k..] + Order(ready, q + 1), tickets, chosen - sum)
        {
          var rp := ready[q][k];
          sum := sum + tickets[rp];
          if sum >= chosen {
            return rp;
          }
          assert (ready[q][k..] + Order(ready, q + 1))[1..] == ready[q][k + 1..] + Order(ready, q + 1);
          k := k + 1;
        }
        assert ready[q][k..] + Order(ready, q + 1) == Order(ready, q + 1);
        q := q + 1;
      }
      return -1;
    }

    /** Give a process `n` more tickets, or take them away if `n` is negative. */
    method ProcessSetPriority(p: nat, n: int)
      requires Queues() && p < |flags|
      modifies this`tickets, this`total
      ensures Queues() && L() == Act(old(L()), Renew(p, n))
      ensures Off() == old(Off()) + Drift(old(tickets)[p], n, flags[p] == {})
    {
      HeldRenewed(S(), tickets, p, Renewed(tickets[p], n).0, 0);
      if n > 0 {
        if n + tickets[p] > MAX_TICKETS || tickets[p] == MAX_TICKETS {
          tickets := tickets[p := MAX_TICKETS];
        } else {
          tickets := tickets[p := tickets[p] + n];
          total := total + n;
        }
      } else {
        if tickets[p] + n < 0 || tickets[p] == 0 {
          tickets := tickets[p := 0];
        } else {
          tickets := tickets[p := tickets[p] + n];
          total := total + n;
        }
      }
    }
  }

  lemma SwitchedOk(s: State, r: nat)
    requires ReadyOk(s) && r < |s.flags|
    ensures ReadyOk(s.(cur := r))
  {
    forall q | 0 <= q < NR_SCHED_QUEUES
      ensures ReadyAt(s.(cur := r), q)
    {
      assert ReadyAt(s, q);
    }
  }

  lemma {:induction false} SumRenewed(list: seq<nat>, tickets: seq<nat>, p: nat, t: nat)
    requires InTable(list, |tickets|) && Distinct(list) && p < |tickets|
    ensures Sum(list, tickets[p := t]) == Sum(list, tickets) + if p in list then t - tickets[p] else 0
  {
    if list != [] {
      var rest := list[1..];
      assert forall i :: 0 <= i < |rest| ==> rest[i] == list[i + 1];
      SumRenewed(rest, tickets, p, t);
    }
  }

  lemma {:induction false} HeldRenewed(s: State, tickets: seq<nat>, p: nat, t: nat, q: nat)
    requires ReadyOk(s) && Known(s.ready, |tickets|) && p < |s.flags| == |tickets| && q <= NR_SCHED_QUEUES
    ensures Held(s.ready, tickets[p := t], q) ==
      Held(s.ready, tickets, q) + if s.flags[p] == {} && q <= s.priority[p] then t - tickets[p] else 0
    decreases NR_SCHED_QUEUES - q
  {
    if q < NR_SCHED_QUEUES {
      assert ReadyAt(s, q);
      SumRenewed(s.ready[q], tickets, p, t);
      HeldRenewed(s, tickets, p, t, q + 1);
    }
  }

  /**
   The draw in a state in which the ledger is right: it never falls through, its winner holds tickets,
   and among the numbers `1..total` each queued process has exactly as many as it holds tickets.
   */
  lemma DrawIsFair(s: State, tickets: seq<nat>, total: int, random: nat)
    requires ReadyOk(s) && |tickets| == |s.flags| && Known(s.ready, |tickets|)
    requires total == Held(s.ready, tickets, 0)
    ensures InTable(Order(s.ready, 0), |tickets|)
    ensures var order := Order(s.ready, 0);
      && (total <= 0 <==> forall p :: 0 <= p < |s.flags| && s.flags[p] == {} ==> tickets[p] == 0)
      && (total > 0 ==> var w := Winner(order, tickets, random % total + 1);
            0 <= w < |s.flags| && s.flags[w] == {} && tickets[w] > 0)
      && (forall p :: 0 <= p < |s.flags| && s.flags[p] == {} ==> |Draws(order, tickets, p, total)| == tickets[p])
  {
    var order := Order(s.ready, 0);
    OrderKnown(s.ready, 0, |tickets|);
    OrderDistinct(s, 0);
    HeldInOrder(s.ready, tickets, 0);
    forall p: nat
      ensures p in order <==> p < |s.flags| && s.flags[p] == {}
    {
      Queued(s, p);
    }
    forall p: nat | p in order
      ensures |Draws(order, tickets, p, total)| == tickets[p] && tickets[p] <= total
    {
      ExactShare(order, tickets, p, total);
      AheadFits(order, tickets, p);
    }
    if total > 0 {
      var n := random % total + 1;
      EveryDrawWins(order, tickets, n);
      WinsWith(order, tickets, Winner(order, tickets, n), n);
    }
  }

  /** Of the numbers `1..total` none falls through, and each queued process has as many as it holds tickets. */
  ghost predicate Fair(s: State, tickets: seq<nat>, total: int)
    requires InTable(Order(s.ready, 0), |tickets|)
  {
    var order := Order(s.ready, 0);
    && (forall n :: 1 <= n <= total ==> Winner(order, tickets, n) >= 0)
    && (forall p :: 0 <= p < |tickets| && p in order ==> |Draws(order, tickets, p, total)| == tickets[p])
  }

  /** The draw is fair exactly while the ledger is right. */
  lemma FairIff(s: State, tickets: seq<nat>, total: int)
    requires ReadyOk(s) && |tickets| == |s.flags| && Known(s.ready, |tickets|)
    ensures InTable(Order(s.ready, 0), |tickets|)
    ensures Fair(s, tickets, total) <==> (if total < 0 then 0 else total) == Held(s.ready, tickets, 0)
  {
    var order, sum := Order(s.ready, 0), Held(s.ready, tickets, 0);
    OrderKnown(s.ready, 0, |tickets|);
    OrderDistinct(s, 0);
    HeldInOrder(s.ready, tickets, 0);
    var most := if total < 0 then 0 else total;
    if most > sum {
      EveryDrawWins(order, tickets, most);
    } else if most < sum {
      EveryDrawWins(order, tickets, most + 1);
      var w := Winner(order, tickets, most + 1);
      WinsWith(order, tickets, w, most + 1);
      ExactShare(order, tickets, w, total);
    } else {
      forall n | 1 <= n <= total
        ensures Winner(order, tickets, n) >= 0
      {
        EveryDrawWins(order, tickets, n);
      }
      forall p | 0 <= p < |tickets| && p in order
        ensures |Draws(order, tickets, p, total)| == tickets[p]
      {
        ExactShare(order, tickets, p, total);
        AheadFits(order, tickets, p);
      }
    }
  }

  /**
   An input on which it drifts: of two queued processes with 15 and 2 tickets the first is given 10 more
   and is cut off at 20. The total stays 17, and the other process wins no draw.
   */
  lemma DriftStarves(random: nat)
    ensures var order, tickets, total := [0, 1], [15, 2], 17;
      && total == Sum(order, tickets) && Drift(15, 10, true) != 0
      && Winner(order, tickets[0 := Renewed(15, 10).0], random % (total + Renewed(15, 10).1) + 1) == 0
  {
    assert Sum([0, 1], [15, 2]) == 15 + Sum([1], [15, 2]);
  }

  lemma Queued(s: State, p: nat)
    requires ReadyOk(s)
    ensures p in Order(s.ready, 0) <==> p < |s.flags| && s.flags[p] == {}
  {
    OrderHolds(s.ready, 0, p);
    if p in Order(s.ready, 0) {
      var r :| 0 <= r < |s.ready| && p in s.ready[r];
      assert ReadyAt(s, r);
    } else if p < |s.flags| {
      assert ReadyAt(s, s.priority[p]);
    }
  }

  // ----- Who runs -----

  /** The random numbers below `n` with which the draw makes `p` the current process. */
  ghost function Randoms(l: Ledger, timeLeft: bool, p: nat, n: nat): set<nat>
    requires Proper(l)
  {
    set r: nat | r < n && Drawn(l, timeLeft, r).s.cur == p
  }

  lemma TicketIs(total: nat, r: nat)
    requires r < total
    ensures Ticket(total, r) == r + 1
  {
  }

  /** The numbers from `a` up to, not including, `b`. */
  function From(a: nat, b: nat): set<nat> {
    if a >= b then {} else From(a, b - 1) + {b - 1}
  }

  lemma {:induction false} FromIs(a: nat, b: nat)
    requires a <= b
    ensures |From(a, b)| == b - a && forall n :: n in From(a, b) <==> a <= n < b
  {
    if a < b { FromIs(a, b - 1); }
  }

  /** A preempted process is back on its queue, and its tickets are in the total, before the draw. */
  lemma DrawnTotal(l: Ledger, timeLeft: bool, random: nat)
    requires Proper(l) && !Runnable(l.s, l.s.cur) && l.total == Tally(l)
    ensures var u := PutBack(l.s, timeLeft); var m := Drawn(l, timeLeft, random);
      && ReadyOk(u) && Known(u.ready, |l.tickets|) && |u.flags| == |l.tickets|
      && m.total == Held(u.ready, l.tickets, 0)
      && m.s == (var w := Pick(u.ready, l.tickets, m.total, random); if w < 0 then u else u.(cur := w))
  {
    hide Tally, Pick, Held;
    DrawTally(l, timeLeft, random);
    PutBackKeeps(l.s, timeLeft);
    ReadyKnown(PutBack(l.s, timeLeft));
    HeldIsTally(Drawn(l, timeLeft, random));
  }

  /** With which random numbers the draw picks `p`, out of as many as there are tickets; it always picks someone. */
  lemma PickedWith(u: State, tickets: seq<nat>, p: nat, r: nat)
    requires ReadyOk(u) && |tickets| == |u.flags| && Known(u.ready, |tickets|) && p < |u.flags| && u.flags[p] == {}
    requires r < Held(u.ready, tickets, 0)
    ensures InTable(Order(u.ready, 0), |tickets|)
    ensures var a := Ahead(Order(u.ready, 0), tickets, p); var w := Pick(u.ready, tickets, Held(u.ready, tickets, 0), r);
      w >= 0 && (w == p <==> a <= r < a + tickets[p])
  {
    hide Winner, Ahead, Held, Order, ReadyOk, Ticket;
    var order := Order(u.ready, 0);
    OrderKnown(u.ready, 0, |tickets|);
    OrderDistinct(u, 0);
    HeldInOrder(u.ready, tickets, 0);
    Queued(u, p);
    TicketIs(Held(u.ready, tickets, 0), r);
    WinsWith(order, tickets, p, r + 1);
    EveryDrawWins(order, tickets, r + 1);
  }

  /** With which random numbers `p` is the one that runs. */
  lemma RunsWith(l: Ledger, timeLeft: bool, p: nat, r: nat)
    requires Proper(l) && !Runnable(l.s, l.s.cur) && l.total == Tally(l)
    requires var u := PutBack(l.s, timeLeft); p < |u.flags| && u.flags[p] == {}
    requires Known(PutBack(l.s, timeLeft).ready, |l.tickets|) && r < Held(PutBack(l.s, timeLeft).ready, l.tickets, 0)
    ensures InTable(Order(PutBack(l.s, timeLeft).ready, 0), |l.tickets|)
    ensures var a := Ahead(Order(PutBack(l.s, timeLeft).ready, 0), l.tickets, p);
      Drawn(l, timeLeft, r).s.cur == p <==> a <= r < a + l.tickets[p]
  {
    hide Tally, Drawn, Ahead, Held, Order, Pick, PutBack, Known;
    DrawnTotal(l, timeLeft, r);
    PickedWith(PutBack(l.s, timeLeft), l.tickets, p, r);
  }

  /**
   While the total is right, of the random numbers below it each runnable process has as many as it holds
   tickets: with those, and no others, it is the one that runs.
   */
  lemma DrawShares(l: Ledger, timeLeft: bool, p: nat)
    requires Proper(l) && !Runnable(l.s, l.s.cur) && l.total == Tally(l)
    requires var u := PutBack(l.s, timeLeft); p < |u.flags| && u.flags[p] == {}
    ensures Known(PutBack(l.s, timeLeft).ready, |l.tickets|)
    ensures |Randoms(l, timeLeft, p, Held(PutBack(l.s, timeLeft).ready, l.tickets, 0))| == l.tickets[p]
  {
    hide Tally, Drawn, Ahead, Held, Order, PutBack;
    var u := PutBack(l.s, timeLeft);
    DrawnTotal(l, timeLeft, 0);
    var order, n := Order(u.ready, 0), Held(u.ready, l.tickets, 0);
    OrderKnown(u.ready, 0, |l.tickets|);
    HeldInOrder(u.ready, l.tickets, 0);
    Queued(u, p);
    AheadFits(order, l.tickets, p);
    var a := Ahead(order, l.tickets, p);
    FromIs(a, a + l.tickets[p]);
    forall r: nat
      ensures r in Randoms(l, timeLeft, p, n) <==> r in From(a, a + l.tickets[p])
    {
      if r < n { RunsWith(l, timeLeft, p, r); }
    }
    assert Randoms(l, timeLeft, p, n) == From(a, a + l.tickets[p]);
  }

  // ----- The total over whole runs -----

  /** The tickets of the runnable processes among the first `n`. */
  function TallyTo(flags: seq<set<Rts>>, tickets: seq<nat>, n: nat): nat
    requires n <= |flags| == |tickets|
  {
    if n == 0 then 0 else TallyTo(flags, tickets, n - 1) + if flags[n - 1] == {} then tickets[n - 1] else 0
  }

  /** The tickets of the runnable processes. */
  function Tally(l: Ledger): nat
    requires |l.tickets| == |l.s.flags|
  {
    TallyTo(l.s.flags, l.tickets, |l.tickets|)
  }

  lemma {:induction false} TallyAfter(flags: seq<set<Rts>>, tickets: seq<nat>, n: nat, p: nat, f: set<Rts>, t: nat)
    requires n <= |flags| == |tickets| && p < |flags|
    ensures TallyTo(flags[p := f], tickets[p := t], n) == TallyTo(flags, tickets, n)
      + if p < n then (if f == {} then t else 0) - (if flags[p] == {} then tickets[p] else 0) else 0
  {
    if n > 0 { TallyAfter(flags, tickets, n - 1, p, f, t); }
  }

  /** The flags of one process change. */
  lemma FlagsTally(s: State, u: State, tickets: seq<nat>, total: int, p: nat, f: set<Rts>)
    requires p < |s.flags| == |tickets| && u.flags == s.flags[p := f]
    ensures Tally(Ledger(u, tickets, total)) ==
      Tally(Ledger(s, tickets, total)) + (if f == {} then tickets[p] else 0) - Counted(s, tickets, p)
  {
    TallyAfter(s.flags, tickets, |tickets|, p, f, tickets[p]);
    assert tickets[p := tickets[p]] == tickets;
  }

  lemma {:induction false} SumIsTally(list: seq<nat>, flags: seq<set<Rts>>, tickets: seq<nat>, n: nat)
    requires n <= |flags| == |tickets| && Distinct(list) && InTable(list, |tickets|)
    requires forall p: nat :: p in list <==> p < n && flags[p] == {}
    ensures Sum(list, tickets) == TallyTo(flags, tickets, n)
    decreases n
  {
    assert forall i :: 0 <= i < |list| ==> list[i] in list;
    Fits(list, n);
    if n == 0 {
    } else if n - 1 in list {
      SumAfterRemove(list, n - 1, tickets);
      RemoveOne(list, n - 1);
      SumIsTally(Remove(list, n - 1), flags, tickets, n - 1);
    } else {
      SumIsTally(list, flags, tickets, n - 1);
    }
  }

  /** The queues hold the tickets of the runnable processes. */
  lemma HeldIsTally(l: Ledger)
    requires Proper(l)
    ensures Held(l.s.ready, l.tickets, 0) == Tally(l)
  {
    var order := Order(l.s.ready, 0);
    HeldInOrder(l.s.ready, l.tickets, 0);
    OrderDistinct(l.s, 0);
    forall p: nat
      ensures p in order <==> p < |l.s.flags| && l.s.flags[p] == {}
    {
      Queued(l.s, p);
    }
    SumIsTally(order, l.s.flags, l.tickets, |l.tickets|);
  }

  lemma UnsetTally(s: State, tickets: seq<nat>, total: int, p: nat, f: Rts)
    requires WellFormed(s) && p < |s.flags| == |tickets|
    ensures Tally(Ledger(Unset(s, p, f), tickets, total)) == Tally(Ledger(s, tickets, total)) + Gained(s, tickets, p, f)
  {
    hide Tally;
    var u := s.(flags := s.flags[p := s.flags[p] - {f}]);
    var v := Unset(s, p, f);
    FlagsTally(s, u, tickets, total, p, u.flags[p]);
    if v.flags != u.flags {
      FlagsTally(u, v, tickets, total, s.cur, u.flags[s.cur] + {Preempted});
    } else {
      FlagsTally(u, v, tickets, total, p, u.flags[p]);
    }
  }

  lemma EventTally(s: State, tickets: seq<nat>, total: int, ev: Event)
    requires ReadyOk(s) && |tickets| == |s.flags| && Enabled(s, ev) && !ev.Reschedule?
    ensures Tally(Ledger(Apply(s, ev), tickets, total)) == Tally(Ledger(s, tickets, total)) + Moved(s, tickets, ev)
  {
    hide Tally, Gained;
    match ev
    case SetFlag(p, f) => FlagsTally(s, Set(s, p, f), tickets, total, p, s.flags[p] + {f});
    case ClearFlag(p, f) => UnsetTally(s, tickets, total, p, f);
    case NewPriority(p, priority) =>
      var u := if Runnable(s, p) then Set(s, p, NoQuantum) else s;
      FlagsTally(s, u, tickets, total, p, u.flags[p]);
      var v := u.(priority := u.priority[p := priority]);
      FlagsTally(u, v, tickets, total, p, u.flags[p]);
      UnsetTally(v, tickets, total, p, NoQuantum);
  }

  /** How far an action throws the total off. */
  function DriftOf(l: Ledger, a: Action): int
    requires Possible(l, a) && |l.tickets| == |l.s.flags|
  {
    if a.Renew? then Drift(l.tickets[a.p], a.n, l.s.flags[a.p] == {}) else 0
  }

  lemma DrawTally(l: Ledger, timeLeft: bool, random: nat)
    requires Proper(l)
    ensures var m := Drawn(l, timeLeft, random); Proper(m) && m.total - Tally(m) == l.total - Tally(l)
  {
    hide Tally, Pick;
    if !Runnable(l.s, l.s.cur) {
      PutBackKeeps(l.s, timeLeft);
      var m := Drawn(l, timeLeft, random);
      var u := PutBack(l.s, timeLeft);
      ReadyKnown(u);
      if Preempted !in l.s.flags[l.s.cur] { assert l.s.flags[l.s.cur] - {Preempted} == l.s.flags[l.s.cur]; }
      FlagsTally(l.s, m.s, l.tickets, l.total, l.s.cur, l.s.flags[l.s.cur] - {Preempted});
      SameTally(m, l.total);
      var w := Pick(u.ready, l.tickets, m.total, random);
      if w >= 0 {
        PickIsQueued(u, l.tickets, m.total, random);
        SwitchedOk(u, w);
      }
    }
  }

  lemma SameTally(l: Ledger, total: int)
    requires |l.tickets| == |l.s.flags|
    ensures Tally(l.(total := total)) == Tally(l)
  {
  }

  lemma PickIsQueued(s: State, tickets: seq<nat>, total: int, random: nat)
    requires ReadyOk(s) && |tickets| == |s.flags| && Known(s.ready, |tickets|)
    ensures var w := Pick(s.ready, tickets, total, random); w >= 0 ==> w < |s.flags| && s.flags[w] == {}
  {
    hide Winner, Order;
    var w := Pick(s.ready, tickets, total, random);
    OrderKnown(s.ready, 0, |tickets|);
    if w >= 0 {
      EveryDrawWins(Order(s.ready, 0), tickets, random % total + 1);
      Queued(s, w);
    }
  }

  /** Every action keeps the queues right and moves the total with them, but for the drift. */
  lemma ActKeeps(l: Ledger, a: Action)
    requires Proper(l) && Possible(l, a)
    ensures var m := Act(l, a); Proper(m) && m.total - Tally(m) == l.total - Tally(l) + DriftOf(l, a)
  {
    match a
    case Queue(ev) =>
      EventKeeps(l.s, ev);
      ReadyKnown(Apply(l.s, ev));
      EventTally(l.s, l.tickets, l.total, ev);
      SameTally(Act(l, a), l.total);
    case Renew(p, n) =>
      var t := Renewed(l.tickets[p], n).0;
      TallyAfter(l.s.flags, l.tickets, |l.tickets|, p, l.s.flags[p], t);
      assert l.s.flags[p := l.s.flags[p]] == l.s.flags;
    case Draw(timeLeft, random) => DrawTally(l, timeLeft, random);
  }

  /** `trace` is a run: each ledger follows from the one before by an action of `acts`. */
  ghost predicate IsLedgerRun(trace: seq<Ledger>, acts: seq<Action>) {
    |trace| == |acts| + 1 && Proper(trace[0]) && forall i :: 0 <= i < |acts| ==> ActAt(trace, acts, i)
  }

  ghost predicate ActAt(trace: seq<Ledger>, acts: seq<Action>, i: nat)
    requires |trace| == |acts| + 1 && i < |acts|
  {
    Proper(trace[i]) && Possible(trace[i], acts[i]) && trace[i + 1] == Act(trace[i], acts[i])
  }

  /** The drifts of the first `i` actions. */
  ghost function DriftTo(trace: seq<Ledger>, acts: seq<Action>, i: nat): int
    requires IsLedgerRun(trace, acts) && i <= |acts|
  {
    if i == 0 then 0
    else
      assert ActAt(trace, acts, i - 1);
      DriftTo(trace, acts, i - 1) + DriftOf(trace[i - 1], acts[i - 1])
  }

  /** In every state of every run the total is off the tickets of the runnable processes by the drifts so far. */
  lemma {:induction false} TotalInRuns(trace: seq<Ledger>, acts: seq<Action>, i: nat)
    requires IsLedgerRun(trace, acts) && i <= |acts| && trace[0].total == Tally(trace[0])
    ensures Proper(trace[i]) && trace[i].total == Tally(trace[i]) + DriftTo(trace, acts, i)
  {
    hide Tally, DriftOf, Act;
    if i > 0 {
      TotalInRuns(trace, acts, i - 1);
      assert ActAt(trace, acts, i - 1);
      ActKeeps(trace[i - 1], acts[i - 1]);
    }
  }

  lemma {:induction false} NoDrift(trace: seq<Ledger>, acts: seq<Action>, i: nat)
    requires IsLedgerRun(trace, acts) && i <= |acts| && forall j :: 0 <= j < i ==> !acts[j].Renew?
    ensures DriftTo(trace, acts, i) == 0
  {
    if i > 0 {
      assert ActAt(trace, acts, i - 1);
      NoDrift(trace, acts, i - 1);
    }
  }

  /** The total is never wrong, and every draw fair, in a run in which nobody's tickets are changed. */
  lemma AlwaysFair(trace: seq<Ledger>, acts: seq<Action>, i: nat)
    requires IsLedgerRun(trace, acts) && i <= |acts| && trace[0].total == Tally(trace[0])
    requires forall j :: 0 <= j < i ==> !acts[j].Renew?
    ensures Proper(trace[i]) && InTable(Order(trace[i].s.ready, 0), |trace[i].tickets|)
    ensures trace[i].total == Tally(trace[i]) == Held(trace[i].s.ready, trace[i].tickets, 0)
    ensures Fair(trace[i].s, trace[i].tickets, trace[i].total)
  {
    hide Tally, Held;
    TotalInRuns(trace, acts, i);
    NoDrift(trace, acts, i);
    HeldIsTally(trace[i]);
    FairIff(trace[i].s, trace[i].tickets, trace[i].total);
  }
}
