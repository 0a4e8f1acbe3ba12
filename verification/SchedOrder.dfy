/**
 What each scheduling event does to each process, and in which order the run queues serve: a process
 that becomes runnable goes behind all that wait, and those that wait keep their order.
 */
module SchedOrder {
  import opened Links
  import opened Sched

  // ----- Flags, priorities, the current process -----

  /** The process that an event puts on a run queue, if there is one. */
  function Newcomer(s: State, ev: Event): int
    requires WellFormed(s) && Enabled(s, ev)
  {
    match ev
    case SetFlag(_, _) => -1
    case ClearFlag(p, f) => if s.flags[p] == {f} then p else -1
    case NewPriority(p, _) => if s.flags[p] <= {NoQuantum} then p else -1
    case Reschedule(_) => if s.flags[s.cur] == {Preempted} then s.cur else -1
  }

  /** A preempted process that has time left goes back to the front, all others to the end. */
  predicate ToFront(ev: Event) {
    ev.Reschedule? && ev.timeLeft
  }

  function PriorityAfter(s: State, ev: Event, x: nat): nat
    requires WellFormed(s) && x < |s.flags|
  {
    if ev.NewPriority? && ev.p == x then ev.priority else s.priority[x]
  }

  /** The current process gives way just to a newcomer that is strictly better, and if it can be preempted. */
  predicate GivesWay(s: State, ev: Event)
    requires WellFormed(s) && Enabled(s, ev)
  {
    var n := Newcomer(s, ev);
    0 <= n < |s.flags| && n != s.cur && s.preemptible[s.cur] && PriorityAfter(s, ev, n) < s.priority[s.cur]
  }

  /** The flags of each process: what the event is about, and the flag of the one that gives way. */
  predicate FlagsAfter(s: State, ev: Event, u: State, x: nat)
    requires WellFormed(s) && Enabled(s, ev) && x < |s.flags| == |u.flags|
  {
    forall g ::
      g in u.flags[x] <==>
        || (g in s.flags[x] && !(ev.ClearFlag? && x == ev.p && g == ev.f) && !(ev.NewPriority? && x == ev.p && g == NoQuantum)
            && !(ev.Reschedule? && x == s.cur && g == Preempted))
        || (ev.SetFlag? && x == ev.p && g == ev.f)
        || (x == s.cur && g == Preempted && GivesWay(s, ev))
  }

  /** What clearing a flag does to the flags. */
  lemma UnsetFlags(s: State, p: nat, f: Rts)
    requires WellFormed(s) && p < |s.flags|
    ensures var u, fl := Unset(s, p, f), s.flags[p := s.flags[p] - {f}];
      && u == State(u.flags, s.priority, s.preemptible, u.ready, s.cur)
      && u.flags == (if s.flags[p] != {} && fl[p] == {} && s.preemptible[s.cur] && s.priority[p] < s.priority[s.cur]
                     then fl[s.cur := fl[s.cur] + {Preempted}] else fl)
  {
  }

  lemma SetFlagDoes(s: State, p: nat, f: Rts)
    requires WellFormed(s) && p < |s.flags|
    ensures Does(s, SetFlag(p, f))
  {
    var ev, u := SetFlag(p, f), Set(s, p, f);
    assert u == State(s.flags[p := s.flags[p] + {f}], s.priority, s.preemptible, u.ready, s.cur);
    forall x | 0 <= x < |s.flags|
      ensures PriorityIs(s, ev, u, x) && FlagsAfter(s, ev, u, x)
    {
    }
  }

  lemma ClearFlagDoes(s: State, p: nat, f: Rts)
    requires WellFormed(s) && p < |s.flags|
    ensures Does(s, ClearFlag(p, f))
  {
    hide Unset;
    var ev, u := ClearFlag(p, f), Unset(s, p, f);
    UnsetFlags(s, p, f);
    assert s.flags[p] != {} && s.flags[p] - {f} == {} <==> s.flags[p] == {f};
    forall x | 0 <= x < |s.flags|
      ensures PriorityIs(s, ev, u, x) && FlagsAfter(s, ev, u, x)
    {
    }
  }

  lemma NewPriorityDoes(s: State, p: nat, priority: nat)
    requires WellFormed(s) && p < |s.flags| && priority < NR_SCHED_QUEUES
    ensures Does(s, NewPriority(p, priority))
  {
    hide Unset;
    var ev, u := NewPriority(p, priority), SetPriority(s, p, priority);
    var v := if Runnable(s, p) then Set(s, p, NoQuantum) else s;
    assert v == State(v.flags, s.priority, s.preemptible, v.ready, s.cur);
    if Runnable(s, p) { assert s.flags[p] + {NoQuantum} == {NoQuantum}; }
    assert v.flags == if Runnable(s, p) then s.flags[p := {NoQuantum}] else s.flags;
    UnsetFlags(v.(priority := v.priority[p := priority]), p, NoQuantum);
    assert v.flags[p] != {} && v.flags[p] - {NoQuantum} == {} <==> s.flags[p] <= {NoQuantum};
    forall x | 0 <= x < |s.flags|
      ensures PriorityIs(s, ev, u, x) && FlagsAfter(s, ev, u, x)
    {
    }
  }

  lemma RescheduleDoes(s: State, timeLeft: bool)
    requires WellFormed(s)
    ensures Does(s, Reschedule(timeLeft))
  {
    var ev, u := Reschedule(timeLeft), Switch(s, timeLeft).0;
    if Preempted !in s.flags[s.cur] { assert s.flags[s.cur] - {Preempted} == s.flags[s.cur]; }
    assert u.flags == if Runnable(s, s.cur) then s.flags else s.flags[s.cur := s.flags[s.cur] - {Preempted}];
    forall x | 0 <= x < |s.flags|
      ensures PriorityIs(s, ev, u, x) && FlagsAfter(s, ev, u, x)
    {
    }
  }

  predicate PriorityIs(s: State, ev: Event, u: State, x: nat)
    requires WellFormed(s) && x < |s.flags| == |u.flags| == |u.priority|
  {
    u.priority[x] == PriorityAfter(s, ev, x)
  }

  ghost predicate Does(s: State, ev: Event)
    requires WellFormed(s) && Enabled(s, ev)
  {
    var u := Apply(s, ev);
    && |u.flags| == |u.priority| == |s.flags| && u.preemptible == s.preemptible
    && (forall x :: 0 <= x < |s.flags| ==> PriorityIs(s, ev, u, x) && FlagsAfter(s, ev, u, x))
    && (!ev.Reschedule? || s.flags[s.cur] == {} ==> u.cur == s.cur)
  }

  /** After each event, what becomes of flags, priorities and the current process; who is queued where follows. */
  lemma EventDoes(s: State, ev: Event)
    requires ReadyOk(s) && Enabled(s, ev)
    ensures ReadyOk(Apply(s, ev)) && Does(s, ev)
  {
    hide Does;
    EventKeeps(s, ev);
    match ev
    case SetFlag(p, f) => SetFlagDoes(s, p, f);
    case ClearFlag(p, f) => ClearFlagDoes(s, p, f);
    case NewPriority(p, priority) => NewPriorityDoes(s, p, priority);
    case Reschedule(timeLeft) => RescheduleDoes(s, timeLeft);
  }

  // ----- The order of service -----

  /** `x` stands before `y`. */
  ghost predicate Ahead(list: seq<nat>, x: nat, y: nat) {
    exists a, b :: 0 <= a < b < |list| && list[a] == x && list[b] == y
  }

  lemma AheadIn(list: seq<nat>, x: nat, y: nat)
    requires Ahead(list, x, y)
    ensures x in list && y in list && (Distinct(list) ==> x != y && !Ahead(list, y, x))
  {
  }

  lemma AheadAtEnd(list: seq<nat>, p: nat, x: nat, y: nat)
    requires p !in list && x != y
    ensures Ahead(list + [p], x, y) <==> Ahead(list, x, y) || (x in list && y == p)
  {
    var l := list + [p];
    if x in list && y == p {
      var a :| 0 <= a < |list| && list[a] == x;
      assert l[a] == x && l[|list|] == y;
    }
    if Ahead(list, x, y) {
      var a, b :| 0 <= a < b < |list| && list[a] == x && list[b] == y;
      assert l[a] == x && l[b] == y;
    }
    if Ahead(l, x, y) {
      var a, b :| 0 <= a < b < |l| && l[a] == x && l[b] == y;
      assert b < |list| ==> list[a] == x && list[b] == y;
    }
  }

  lemma AheadAtFront(list: seq<nat>, p: nat, x: nat, y: nat)
    requires p !in list && x != y
    ensures Ahead([p] + list, x, y) <==> Ahead(list, x, y) || (x == p && y in list)
  {
    var l := [p] + list;
    if x == p && y in list {
      var b :| 0 <= b < |list| && list[b] == y;
      assert l[0] == x && l[b + 1] == y;
    }
    if Ahead(list, x, y) {
      var a, b :| 0 <= a < b < |list| && list[a] == x && list[b] == y;
      assert l[a + 1] == x && l[b + 1] == y;
    }
    if Ahead(l, x, y) {
      var a, b :| 0 <= a < b < |l| && l[a] == x && l[b] == y;
      assert list[b - 1] == y && (a > 0 ==> list[a - 1] == x);
    }
  }

  lemma {:induction false} AheadAfterRemove(list: seq<nat>, p: nat, x: nat, y: nat)
    requires Distinct(list) && x != y
    ensures Ahead(Remove(list, p), x, y) <==> Ahead(list, x, y) && x != p && y != p
  {
    if list != [] {
      var h, rest := list[0], list[1..];
      assert list == [h] + rest;
      assert h !in rest && Distinct(rest) by {
        assert forall i :: 0 <= i < |rest| ==> rest[i] == list[i + 1];
      }
      AheadAtFront(rest, h, x, y);
      RemoveOne(list, p);
      RemoveOne(rest, p);
      if h == p {
        if Ahead(rest, x, y) { AheadIn(rest, x, y); }
      } else {
        AheadAfterRemove(rest, p, x, y);
        AheadAtFront(Remove(rest, p), h, x, y);
      }
    }
  }

  /** Who of two processes on a queue comes first after an event. */
  ghost predicate AheadAfter(s: State, ev: Event, q: nat, x: nat, y: nat)
    requires WellFormed(s) && Enabled(s, ev) && q < NR_SCHED_QUEUES
  {
    if y == Newcomer(s, ev) then !ToFront(ev)
    else if x == Newcomer(s, ev) then ToFront(ev)
    else Ahead(s.ready[q], x, y)
  }

  ghost predicate InOrder(s: State, ev: Event, q: nat, x: nat, y: nat)
    requires WellFormed(s) && Enabled(s, ev) && q < NR_SCHED_QUEUES && |Apply(s, ev).ready| == NR_SCHED_QUEUES
  {
    var list := Apply(s, ev).ready[q];
    x in list && y in list && x != y ==> (Ahead(list, x, y) <==> AheadAfter(s, ev, q, x, y))
  }

  lemma SetOrder(s: State, p: nat, f: Rts, q: nat, x: nat, y: nat)
    requires ReadyOk(s) && p < |s.flags| && q < NR_SCHED_QUEUES && x != y
    ensures ReadyOk(Set(s, p, f))
    ensures var list := Set(s, p, f).ready[q];
      && (x in list ==> x in s.ready[q])
      && (x in list && y in list ==> (Ahead(list, x, y) <==> Ahead(s.ready[q], x, y)))
  {
    hide Ahead;
    SetKeeps(s, p, f);
    assert ReadyAt(s, q);
    RemoveOne(s.ready[q], p);
    AheadAfterRemove(s.ready[q], p, x, y);
  }

  lemma EnqueueOrder(s: State, u: State, p: nat, q: nat, x: nat, y: nat)
    requires ReadyOk(s) && p < |s.flags| && !Runnable(s, p) && q < NR_SCHED_QUEUES && x != y
    requires u == s.(flags := s.flags[p := {}])
    ensures var list := Enqueue(u, p).ready[q];
      && (x in list ==> x == p || x in s.ready[q])
      && (x in list && y in list ==> (Ahead(list, x, y) <==> if y == p then true else if x == p then false else Ahead(s.ready[q], x, y)))
  {
    hide Ahead;
    var v := u.(ready := u.ready[u.priority[p] := u.ready[u.priority[p]] + [p]]);
    assert ReadyAt(s, q);
    AheadAtEnd(s.ready[q], p, x, y);
    if Ahead(s.ready[q], x, y) { AheadIn(s.ready[q], x, y); }
    forall r | 0 <= r < NR_SCHED_QUEUES
      ensures ReadyAt(v, r)
    {
      assert ReadyAt(s, r);
    }
    if s.priority[s.cur] > s.priority[p] && s.preemptible[s.cur] {
      SetOrder(v, s.cur, Preempted, q, x, y);
      SetOrder(v, s.cur, Preempted, q, y, x);
    }
  }

  lemma UnsetOrder(s: State, p: nat, f: Rts, q: nat, x: nat, y: nat)
    requires ReadyOk(s) && p < |s.flags| && q < NR_SCHED_QUEUES && x != y
    ensures var list, enters := Unset(s, p, f).ready[q], s.flags[p] != {} && s.flags[p] - {f} == {};
      && (x in list && !(enters && x == p) ==> x in s.ready[q])
      && (x in list && y in list ==>
            (Ahead(list, x, y) <==> if enters && y == p then true else if enters && x == p then false else Ahead(s.ready[q], x, y)))
  {
    hide Ahead;
    var u := s.(flags := s.flags[p := s.flags[p] - {f}]);
    if !Runnable(s, p) && Runnable(u, p) {
      EnqueueOrder(s, u, p, q, x, y);
    }
  }

  lemma NewPriorityOrder(s: State, p: nat, priority: nat, q: nat, x: nat, y: nat)
    requires ReadyOk(s) && p < |s.flags| && priority < NR_SCHED_QUEUES && q < NR_SCHED_QUEUES && x != y
    requires |SetPriority(s, p, priority).ready| == NR_SCHED_QUEUES
    ensures InOrder(s, NewPriority(p, priority), q, x, y)
  {
    hide Ahead, Unset;
    if Runnable(s, p) {
      assert s.flags[p] + {NoQuantum} == {NoQuantum};
      SetOrder(s, p, NoQuantum, q, x, y);
      SetOrder(s, p, NoQuantum, q, y, x);
    }
    var u := if Runnable(s, p) then Set(s, p, NoQuantum) else s;
    assert u.flags[p] != {} && (u.flags[p] - {NoQuantum} == {} <==> s.flags[p] <= {NoQuantum});
    NotQueued(u, p, priority);
    UnsetOrder(u.(priority := u.priority[p := priority]), p, NoQuantum, q, x, y);
    UnsetOrder(u.(priority := u.priority[p := priority]), p, NoQuantum, q, y, x);
  }

  lemma RescheduleOrder(s: State, timeLeft: bool, q: nat, x: nat, y: nat)
    requires ReadyOk(s) && q < NR_SCHED_QUEUES && x != y && |Switch(s, timeLeft).0.ready| == NR_SCHED_QUEUES
    ensures InOrder(s, Reschedule(timeLeft), q, x, y)
  {
    hide Ahead;
    assert ReadyAt(s, q);
    if !Runnable(s, s.cur) {
      AheadAtEnd(s.ready[q], s.cur, x, y);
      AheadAtFront(s.ready[q], s.cur, x, y);
    }
    if Ahead(s.ready[q], x, y) { AheadIn(s.ready[q], x, y); }
    assert Preempted in s.flags[s.cur] && s.flags[s.cur] - {Preempted} == {} <==> s.flags[s.cur] == {Preempted};
  }

  /**
   After each event the processes on a queue stand in the order in which they stood before; a newcomer
   stands behind them all, or in front of them all if it was preempted and has time left.
   */
  lemma EventOrder(s: State, ev: Event, q: nat, x: nat, y: nat)
    requires ReadyOk(s) && Enabled(s, ev) && q < NR_SCHED_QUEUES && x != y
    ensures ReadyOk(Apply(s, ev)) && InOrder(s, ev, q, x, y)
  {
    hide Ahead, Unset, Set, SetPriority, Switch;
    EventKeeps(s, ev);
    match ev
    case SetFlag(p, f) => SetOrder(s, p, f, q, x, y);
    case ClearFlag(p, f) =>
      assert s.flags[p] != {} && s.flags[p] - {f} == {} <==> s.flags[p] == {f};
      UnsetOrder(s, p, f, q, x, y);
    case NewPriority(p, priority) => NewPriorityOrder(s, p, priority, q, x, y);
    case Reschedule(timeLeft) => RescheduleOrder(s, timeLeft, q, x, y);
  }

  // ----- First come, first served -----

  /** In the states `i` to `j` of a run `x` and `y` are on queue `q`, and nobody sets the priority of `x`. */
  ghost predicate StayOn(trace: seq<State>, evs: seq<Event>, i: nat, j: nat, q: nat, x: nat, y: nat)
    requires |trace| == |evs| + 1 && i <= j <= |evs| && q < NR_SCHED_QUEUES
  {
    && (forall k :: i <= k <= j ==> |trace[k].ready| == NR_SCHED_QUEUES && x in trace[k].ready[q] && y in trace[k].ready[q])
    && (forall k :: i <= k < j ==> !(evs[k].NewPriority? && evs[k].p == x))
  }

  /** Of two processes that stay on a queue, the one that stands before the other does so for good. */
  lemma {:induction false} StaysAhead(trace: seq<State>, evs: seq<Event>, i: nat, j: nat, q: nat, x: nat, y: nat)
    requires IsRun(trace, evs) && i <= j <= |evs| && q < NR_SCHED_QUEUES && StayOn(trace, evs, i, j, q, x, y)
    requires Ahead(trace[i].ready[q], x, y) && x != y
    ensures ReadyOk(trace[j]) && Ahead(trace[j].ready[q], x, y)
    decreases j
  {
    hide Ahead, Apply;
    QueuesAlwaysRight(trace, evs, j);
    if i < j {
      var s, ev := trace[j - 1], evs[j - 1];
      StaysAhead(trace, evs, i, j - 1, q, x, y);
      assert StepAt(trace, evs, j - 1);
      assert ReadyAt(s, q) && x in s.ready[q] && y in s.ready[q];
      assert x in trace[j].ready[q] && y in trace[j].ready[q];
      EventOrder(s, ev, q, x, y);
    }
  }

  /** A switch does not pick a process that stands behind another. */
  lemma PickedInTurn(s: State, timeLeft: bool, q: nat, x: nat, y: nat)
    requires ReadyOk(s) && q < NR_SCHED_QUEUES && !Runnable(s, s.cur) && Ahead(s.ready[q], x, y)
    ensures Switch(s, timeLeft).0.cur != y
  {
    hide Ahead;
    AheadIn(s.ready[q], x, y);
    assert ReadyAt(s, q);
    var u := PutBack(s, timeLeft);
    PutBackKeeps(s, timeLeft);
    assert ReadyAt(u, q);
    AheadAtEnd(s.ready[q], s.cur, x, y);
    AheadAtFront(s.ready[q], s.cur, x, y);
    assert Ahead(u.ready[q], x, y);
    BestIsBest(u, 0);
    NotAtHead(u.ready[q], x, y);
  }

  lemma NotAtHead(list: seq<nat>, x: nat, y: nat)
    requires Distinct(list) && Ahead(list, x, y)
    ensures list != [] && list[0] != y
  {
  }

  /** Whoever is queued first is picked first: no switch prefers one that came behind it to the same queue. */
  lemma FirstComeFirstServed(trace: seq<State>, evs: seq<Event>, i: nat, j: nat, q: nat, x: nat, y: nat)
    requires IsRun(trace, evs) && i <= j < |evs| && q < NR_SCHED_QUEUES && StayOn(trace, evs, i, j, q, x, y)
    requires Ahead(trace[i].ready[q], x, y) && x != y
    requires evs[j].Reschedule? && trace[j].cur < |trace[j].flags| && !Runnable(trace[j], trace[j].cur)
    ensures trace[j + 1].cur != y
  {
    hide Ahead, Switch, Apply;
    StaysAhead(trace, evs, i, j, q, x, y);
    assert StepAt(trace, evs, j);
    PickedInTurn(trace[j], evs[j].timeLeft, q, x, y);
    Rescheduled(trace[j], evs[j]);
  }

  lemma Rescheduled(s: State, ev: Event)
    requires WellFormed(s) && ev.Reschedule?
    ensures Apply(s, ev) == Switch(s, ev.timeLeft).0
  {
  }
}
