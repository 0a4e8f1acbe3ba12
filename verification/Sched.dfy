/**
 The run queues, stated over values: setting and clearing the flags that keep a process from
 running, preemption, and choosing the next process.
 */
module Sched {
  import opened Links

  const NR_SCHED_QUEUES: nat := 16

  datatype Rts =
    | SlotFree | ProcStop | Sending | Receiving | Signaled | SigPending | PStop | NoPriv
    | NoEndpoint | VmInhibit | PageFault | VmRequest | VmReqTarget | Preempted | NoQuantum | BootInhibit

  /** What the scheduler looks at; `cur` is the process that runs or ran last. */
  datatype State = State(
    flags: seq<set<Rts>>, priority: seq<nat>, preemptible: seq<bool>,
    ready: seq<seq<nat>>, cur: nat)

  ghost predicate WellFormed(s: State) {
    && |s.priority| == |s.flags| && |s.preemptible| == |s.flags|
    && |s.ready| == NR_SCHED_QUEUES && s.cur < |s.flags|
    && forall p :: 0 <= p < |s.flags| ==> s.priority[p] < NR_SCHED_QUEUES
  }

  predicate Runnable(s: State, p: nat)
    requires p < |s.flags|
  {
    s.flags[p] == {}
  }

  function Remove(q: seq<nat>, p: nat): seq<nat> {
    if q == [] then []
    else if q[0] == p then q[1..]
    else [q[0]] + Remove(q[1..], p)
  }

  function Dequeue(s: State, p: nat): State
    requires WellFormed(s) && p < |s.flags|
  {
    s.(ready := s.ready[s.priority[p] := Remove(s.ready[s.priority[p]], p)])
  }

  /** Set a flag, and take a process that was runnable off its queue. */
  function Set(s: State, p: nat, f: Rts): State
    requires WellFormed(s) && p < |s.flags|
  {
    var u := s.(flags := s.flags[p := s.flags[p] + {f}]);
    if Runnable(s, p) then Dequeue(u, p) else u
  }

  /** Append to the queue of its priority; the current process gives way to a better one. */
  function Enqueue(s: State, p: nat): State
    requires WellFormed(s) && p < |s.flags|
  {
    var q := s.priority[p];
    var u := s.(ready := s.ready[q := s.ready[q] + [p]]);
    if s.priority[s.cur] > q && s.preemptible[s.cur] then Set(u, s.cur, Preempted) else u
  }

  function EnqueueHead(s: State, p: nat): State
    requires WellFormed(s) && p < |s.flags|
  {
    var q := s.priority[p];
    s.(ready := s.ready[q := [p] + s.ready[q]])
  }

  /** Clear a flag, and queue a process that becomes runnable. */
  function Unset(s: State, p: nat, f: Rts): State
    requires WellFormed(s) && p < |s.flags|
  {
    var u := s.(flags := s.flags[p := s.flags[p] - {f}]);
    if !Runnable(s, p) && Runnable(u, p) then Enqueue(u, p) else u
  }

  /** The arguments `sched_proc` lets through; -1 leaves a value as it is. */
  predicate AcceptsPriority(priority: int) {
    priority == -1 || 0 <= priority <= NR_SCHED_QUEUES
  }

  /** Give a process a new priority, by way of its queue if it is runnable. */
  function SetPriority(s: State, p: nat, priority: nat): State
    requires WellFormed(s) && p < |s.flags| && priority < NR_SCHED_QUEUES
  {
    var u := if Runnable(s, p) then Set(s, p, NoQuantum) else s;
    Unset(u.(priority := u.priority[p := priority]), p, NoQuantum)
  }

  /** The head of the best queue from `q` on that is not empty. */
  function Best(ready: seq<seq<nat>>, q: nat): (r: int)
    requires q <= |ready|
    decreases |ready| - q
  {
    if q == |ready| then -1
    else if ready[q] != [] then ready[q][0]
    else Best(ready, q + 1)
  }

  /** Put back a preempted process: at the front while it has time left. */
  function PutBack(s: State, timeLeft: bool): State
    requires WellFormed(s)
  {
    if Preempted in s.flags[s.cur] then
      var u := s.(flags := s.flags[s.cur := s.flags[s.cur] - {Preempted}]);
      if !Runnable(u, s.cur) then u
      else if timeLeft then EnqueueHead(u, s.cur)
      else Enqueue(u, s.cur)
    else s
  }

  /** Before returning to user mode: keep a runnable process, else switch to the best one. */
  function Switch(s: State, timeLeft: bool): (State, bool)
    requires WellFormed(s)
  {
    if Runnable(s, s.cur) then (s, true)
    else
      var u := PutBack(s, timeLeft);
      var b := Best(u.ready, 0);
      if b < 0 then (u, false) else (u.(cur := b), true)
  }

  // ----- Invariants -----

  /** Queue `q` holds exactly the runnable processes of priority `q`, once each. */
  ghost predicate ReadyAt(s: State, q: nat)
    requires WellFormed(s) && q < NR_SCHED_QUEUES
  {
    && Distinct(s.ready[q])
    && forall p: nat :: p in s.ready[q] <==> p < |s.flags| && s.flags[p] == {} && s.priority[p] == q
  }

  ghost predicate ReadyOk(s: State) {
    WellFormed(s) && forall q :: 0 <= q < NR_SCHED_QUEUES ==> ReadyAt(s, q)
  }

  /** A preemptible current process that has not been told to give way faces no better one. */
  ghost predicate PreemptOk(s: State)
    requires WellFormed(s)
  {
    s.preemptible[s.cur] && Preempted !in s.flags[s.cur] ==>
      forall p :: 0 <= p < |s.flags| && s.flags[p] == {} ==> s.priority[p] >= s.priority[s.cur]
  }

  // ----- The priority that is no queue -----

  predicate OnSome(ready: seq<seq<nat>>, p: nat) {
    exists q :: 0 <= q < |ready| && p in ready[q]
  }

  /** These lists hold runnable processes on the queue of their priority, once, and none is missing. */
  ghost predicate RightLists(s: State, ready: seq<seq<nat>>)
    requires |s.priority| == |s.flags|
  {
    && |ready| == NR_SCHED_QUEUES
    && (forall q :: 0 <= q < NR_SCHED_QUEUES ==> Distinct(ready[q]) && ListsAt(s, ready[q], q))
    && forall p :: 0 <= p < |s.flags| && s.flags[p] == {} ==> OnSome(ready, p)
  }

  ghost predicate ListsExist(s: State)
    requires |s.priority| == |s.flags|
  {
    exists ready :: RightLists(s, ready)
  }

  ghost predicate ListsAt(s: State, list: seq<nat>, q: nat)
    requires |s.priority| == |s.flags|
  {
    forall p: nat :: p in list ==> p < |s.flags| && s.flags[p] == {} && s.priority[p] == q
  }

  /** The runnable processes of priority `q` among the first `n`. */
  function Members(s: State, q: nat, n: nat): (list: seq<nat>)
    requires |s.priority| == |s.flags| && n <= |s.flags|
    ensures forall p: nat :: p in list <==> p < n && s.flags[p] == {} && s.priority[p] == q
  {
    if n == 0 then []
    else
      var rest := Members(s, q, n - 1);
      if s.flags[n - 1] == {} && s.priority[n - 1] == q then rest + [n - 1] else rest
  }

  lemma {:induction false} MembersDistinct(s: State, q: nat, n: nat)
    requires |s.priority| == |s.flags| && n <= |s.flags|
    ensures Distinct(Members(s, q, n))
  {
    if n > 0 {
      MembersDistinct(s, q, n - 1);
      var rest := Members(s, q, n - 1);
      assert n - 1 !in rest;
    }
  }

  lemma ListedHasQueue(s: State, ready: seq<seq<nat>>, p: nat)
    requires |s.priority| == |s.flags| && RightLists(s, ready) && p < |s.flags| && s.flags[p] == {}
    ensures s.priority[p] < NR_SCHED_QUEUES
  {
    assert OnSome(ready, p);
    var q :| 0 <= q < |ready| && p in ready[q];
    assert ListsAt(s, ready[q], q);
  }

  /** Of the priorities that are let through, just one leaves a runnable process that no queues can hold. */
  lemma ListsExistIff(s: State, p: nat, priority: int)
    requires WellFormed(s) && p < |s.flags| && Runnable(s, p) && AcceptsPriority(priority) && priority != -1
    ensures ListsExist(s.(priority := s.priority[p := priority])) <==> priority != NR_SCHED_QUEUES
  {
    var u := s.(priority := s.priority[p := priority]);
    if priority != NR_SCHED_QUEUES {
      var ready := seq(NR_SCHED_QUEUES, q requires 0 <= q < NR_SCHED_QUEUES => Members(u, q, |u.flags|));
      forall q | 0 <= q < NR_SCHED_QUEUES
        ensures Distinct(ready[q]) && ListsAt(u, ready[q], q)
      {
        MembersDistinct(u, q, |u.flags|);
      }
      forall p | 0 <= p < |u.flags| && u.flags[p] == {}
        ensures OnSome(ready, p)
      {
        assert p in ready[u.priority[p]];
      }
      assert RightLists(u, ready);
    } else if ready :| RightLists(u, ready) {
      ListedHasQueue(u, ready, p);
    }
  }

  lemma {:induction false} BestIsListed(ready: seq<seq<nat>>, q: nat) returns (r: nat)
    requires q <= |ready| && Best(ready, q) >= 0
    ensures r < |ready| && Best(ready, q) in ready[r]
    decreases |ready| - q
  {
    if ready[q] != [] { r := q; } else { r := BestIsListed(ready, q + 1); }
  }

  /** And while the queues hold only processes of their own priority, such a process is never picked. */
  lemma NeverPicked(s: State, ready: seq<seq<nat>>, p: nat)
    requires |s.priority| == |s.flags| && p < |s.flags| && s.priority[p] == NR_SCHED_QUEUES
    requires |ready| == NR_SCHED_QUEUES
    requires forall q, x :: 0 <= q < NR_SCHED_QUEUES && x in ready[q] ==> x < |s.flags| && s.priority[x] == q
    ensures Best(ready, 0) != p
  {
    if Best(ready, 0) == p { var r := BestIsListed(ready, 0); }
  }

  lemma {:induction false} RemoveOne(q: seq<nat>, p: nat)
    requires Distinct(q)
    ensures Distinct(Remove(q, p)) && forall x :: x in Remove(q, p) <==> x in q && x != p
  {
    if q != [] {
      var rest := q[1..];
      assert q == [q[0]] + rest;
      RemoveOne(rest, p);
      assert forall i :: 0 <= i < |rest| ==> rest[i] == q[i + 1];
      assert q[0] !in rest;
      assert q[0] !in Remove(rest, p);
    }
  }

  lemma SetKeeps(s: State, p: nat, f: Rts)
    requires ReadyOk(s) && p < |s.flags|
    ensures ReadyOk(Set(s, p, f)) && (PreemptOk(s) ==> PreemptOk(Set(s, p, f)))
  {
    var u := Set(s, p, f);
    assert ReadyAt(s, s.priority[p]);
    RemoveOne(s.ready[s.priority[p]], p);
    forall q | 0 <= q < NR_SCHED_QUEUES
      ensures ReadyAt(u, q)
    {
      assert ReadyAt(s, q);
    }
  }

  /** Appending a process that has just become runnable. */
  lemma EnqueueKeeps(s: State, u: State, p: nat)
    requires ReadyOk(s) && p < |s.flags| && !Runnable(s, p)
    requires u == s.(flags := s.flags[p := {}])
    ensures ReadyOk(Enqueue(u, p))
    ensures PreemptOk(s) && (p == s.cur ==> Preempted !in s.flags[p]) ==> PreemptOk(Enqueue(u, p))
  {
    var v := u.(ready := u.ready[u.priority[p] := u.ready[u.priority[p]] + [p]]);
    forall q | 0 <= q < NR_SCHED_QUEUES
      ensures ReadyAt(v, q)
    {
      assert ReadyAt(s, q);
    }
    assert ReadyOk(v);
    if s.priority[s.cur] > s.priority[p] && s.preemptible[s.cur] {
      var w := Set(v, s.cur, Preempted);
      assert ReadyAt(v, v.priority[s.cur]);
      RemoveOne(v.ready[v.priority[s.cur]], s.cur);
      forall q | 0 <= q < NR_SCHED_QUEUES
        ensures ReadyAt(w, q)
      {
        assert ReadyAt(v, q);
      }
    }
  }

  lemma UnsetKeeps(s: State, p: nat, f: Rts)
    requires ReadyOk(s) && p < |s.flags|
    ensures ReadyOk(Unset(s, p, f))
    ensures PreemptOk(s) && f != Preempted ==> PreemptOk(Unset(s, p, f))
  {
    var u := s.(flags := s.flags[p := s.flags[p] - {f}]);
    assert f != Preempted && Preempted in s.flags[p] ==> Preempted in u.flags[p];
    if !Runnable(s, p) && Runnable(u, p) {
      assert u == s.(flags := s.flags[p := {}]);
      EnqueueKeeps(s, u, p);
    } else {
      forall q | 0 <= q < NR_SCHED_QUEUES
        ensures ReadyAt(u, q)
      {
        assert ReadyAt(s, q);
      }
    }
  }

  /** A process that may not run is on no queue, so its priority can change. */
  lemma NotQueued(s: State, p: nat, priority: nat)
    requires ReadyOk(s) && p < |s.flags| && s.flags[p] != {} && priority < NR_SCHED_QUEUES
    ensures ReadyOk(s.(priority := s.priority[p := priority]))
  {
    var u := s.(priority := s.priority[p := priority]);
    forall q | 0 <= q < NR_SCHED_QUEUES
      ensures ReadyAt(u, q)
    {
      assert ReadyAt(s, q);
    }
  }

  /** A priority change keeps the queues right, and preemption too unless it is the current process that changes. */
  lemma SetPriorityKeeps(s: State, p: nat, priority: nat)
    requires ReadyOk(s) && p < |s.flags| && priority < NR_SCHED_QUEUES
    ensures ReadyOk(SetPriority(s, p, priority))
    ensures PreemptOk(s) && p != s.cur ==> PreemptOk(SetPriority(s, p, priority))
  {
    var u := if Runnable(s, p) then Set(s, p, NoQuantum) else s;
    SetKeeps(s, p, NoQuantum);
    var v := u.(priority := u.priority[p := priority]);
    NotQueued(u, p, priority);
    UnsetKeeps(v, p, NoQuantum);
  }

  lemma {:induction false} BestIsBest(s: State, q: nat)
    requires ReadyOk(s) && q <= NR_SCHED_QUEUES
    ensures var b := Best(s.ready, q);
      && (b < 0 ==> b == -1 && forall p :: 0 <= p < |s.flags| && s.flags[p] == {} ==> s.priority[p] < q)
      && (b >= 0 ==>
            && b < |s.flags| && s.flags[b] == {} && q <= s.priority[b]
            && s.ready[s.priority[b]] != [] && s.ready[s.priority[b]][0] == b
            && forall p :: 0 <= p < |s.flags| && s.flags[p] == {} && q <= s.priority[p] ==> s.priority[b] <= s.priority[p])
    decreases NR_SCHED_QUEUES - q
  {
    if q < NR_SCHED_QUEUES {
      assert ReadyAt(s, q);
      if s.ready[q] != [] {
        assert s.ready[q][0] in s.ready[q];
      } else {
        BestIsBest(s, q + 1);
        assert forall p: nat :: p !in s.ready[q];
      }
    }
  }

  lemma PutBackKeeps(s: State, timeLeft: bool)
    requires ReadyOk(s) && !Runnable(s, s.cur)
    ensures ReadyOk(PutBack(s, timeLeft)) && PutBack(s, timeLeft).cur == s.cur
  {
    var u := PutBack(s, timeLeft);
    forall q | 0 <= q < NR_SCHED_QUEUES
      ensures ReadyAt(u, q)
    {
      assert ReadyAt(s, q);
    }
  }

  /** The switch keeps both invariants; it fails to find a process only when none is runnable. */
  lemma SwitchKeeps(s: State, timeLeft: bool)
    requires ReadyOk(s)
    ensures var (u, found) := Switch(s, timeLeft);
      && ReadyOk(u) && (PreemptOk(s) ==> PreemptOk(u))
      && (found <==> exists p :: 0 <= p < |u.flags| && u.flags[p] == {})
      && (found ==> u.flags[u.cur] == {} && u.cur in u.ready[u.priority[u.cur]])
      && (found && !Runnable(s, s.cur) ==>
            forall p :: 0 <= p < |u.flags| && u.flags[p] == {} ==> u.priority[u.cur] <= u.priority[p])
  {
    if Runnable(s, s.cur) {
      assert ReadyAt(s, s.priority[s.cur]);
    } else {
      PutBackKeeps(s, timeLeft);
      var u := PutBack(s, timeLeft);
      BestIsBest(u, 0);
      var v := Switch(s, timeLeft).0;
      forall q | 0 <= q < NR_SCHED_QUEUES
        ensures ReadyAt(v, q)
      {
        assert ReadyAt(u, q);
      }
      assert ReadyAt(v, v.priority[v.cur]);
    }
  }

  // ----- Runs -----

  datatype Event =
    | SetFlag(p: nat, f: Rts)
    | ClearFlag(p: nat, f: Rts)
    | NewPriority(p: nat, priority: nat)
    | Reschedule(timeLeft: bool)

  predicate Enabled(s: State, ev: Event) {
    match ev
    case SetFlag(p, _) => p < |s.flags|
    case ClearFlag(p, _) => p < |s.flags|
    case NewPriority(p, priority) => p < |s.flags| && priority < NR_SCHED_QUEUES
    case Reschedule(_) => true
  }

  function Apply(s: State, ev: Event): State
    requires WellFormed(s) && Enabled(s, ev)
  {
    match ev
    case SetFlag(p, f) => Set(s, p, f)
    case ClearFlag(p, f) => Unset(s, p, f)
    case NewPriority(p, priority) => SetPriority(s, p, priority)
    case Reschedule(timeLeft) => Switch(s, timeLeft).0
  }

  /** Only the switch itself lifts a preemption, and nobody changes the priority of the current process. */
  predicate LeavesCurrentAlone(s: State, ev: Event) {
    && (ev.ClearFlag? ==> ev.f != Preempted)
    && (ev.NewPriority? ==> ev.p != s.cur)
  }

  lemma EventKeeps(s: State, ev: Event)
    requires ReadyOk(s) && Enabled(s, ev)
    ensures ReadyOk(Apply(s, ev))
    ensures PreemptOk(s) && LeavesCurrentAlone(s, ev) ==> PreemptOk(Apply(s, ev))
  {
    match ev
    case SetFlag(p, f) => SetKeeps(s, p, f);
    case ClearFlag(p, f) => UnsetKeeps(s, p, f);
    case NewPriority(p, priority) => SetPriorityKeeps(s, p, priority);
    case Reschedule(timeLeft) => SwitchKeeps(s, timeLeft);
  }

  /** `trace` is a run: each state follows from the one before by an event of `evs`. */
  ghost predicate IsRun(trace: seq<State>, evs: seq<Event>) {
    && |trace| == |evs| + 1
    && ReadyOk(trace[0])
    && forall i :: 0 <= i < |evs| ==> StepAt(trace, evs, i)
  }

  ghost predicate StepAt(trace: seq<State>, evs: seq<Event>, i: nat)
    requires |trace| == |evs| + 1 && i < |evs|
  {
    WellFormed(trace[i]) && Enabled(trace[i], evs[i]) && trace[i + 1] == Apply(trace[i], evs[i])
  }

  /** The queues are right in every state of every run. */
  lemma {:induction false} QueuesAlwaysRight(trace: seq<State>, evs: seq<Event>, i: nat)
    requires IsRun(trace, evs) && i <= |evs|
    ensures ReadyOk(trace[i])
  {
    if i > 0 {
      QueuesAlwaysRight(trace, evs, i - 1);
      assert StepAt(trace, evs, i - 1);
      EventKeeps(trace[i - 1], evs[i - 1]);
    }
  }

  /**
   In a run that leaves the current process alone, a preemptible current process is never
   runnable while a better one is queued.
   */
  lemma {:induction false} BestAlwaysRuns(trace: seq<State>, evs: seq<Event>, i: nat, p: nat, q: nat)
    requires IsRun(trace, evs) && i <= |evs| && PreemptOk(trace[0])
    requires forall j :: 0 <= j < i ==> LeavesCurrentAlone(trace[j], evs[j])
    requires q < NR_SCHED_QUEUES
    ensures ReadyOk(trace[i])
    ensures PreemptOk(trace[i])
    ensures var s := trace[i]; s.preemptible[s.cur] && Runnable(s, s.cur) && p in s.ready[q] ==> s.priority[s.cur] <= q
    decreases i
  {
    if i > 0 {
      BestAlwaysRuns(trace, evs, i - 1, p, q);
      assert StepAt(trace, evs, i - 1);
      EventKeeps(trace[i - 1], evs[i - 1]);
    }
    assert ReadyAt(trace[i], q);
  }
}
