/**
 The process table as the kernel keeps it: records with link fields. The two abstract views of
 it, for message passing and for scheduling, and how changes to the records show in the views.
 */
module ProcTable {
  import opened Links
  import opened Ipc
  import opened IpcSafety
  import opened Sched

  datatype Proc = Proc(
    flags: set<Rts>, replyPend: bool, deliver: bool,
    priority: nat, preemptible: bool, timeLeft: nat, quantum: nat,
    nextReady: int, callerQ: int, qLink: int,
    getFrom: Endpoint, sendTo: nat, sendBody: int, deliverMsg: Message, pending: set<nat>,
    trapMask: set<Call>, sendMask: set<nat>)

  function PortOf(x: Proc, callers: seq<nat>): Port {
    Port(NoEndpoint in x.flags, Sending in x.flags, Receiving in x.flags, x.replyPend, x.deliver,
         x.sendTo, x.getFrom, x.sendBody, x.deliverMsg, callers, x.pending)
  }

  /** What message passing sees. */
  function Ports(ps: seq<Proc>, callers: seq<seq<nat>>): (t: Table)
    requires |callers| == |ps|
    ensures |t| == |ps| && forall i :: 0 <= i < |t| ==> t[i] == PortOf(ps[i], callers[i])
  {
    seq(|ps|, i requires 0 <= i < |ps| => PortOf(ps[i], callers[i]))
  }

  /** What the scheduler sees. */
  function View(ps: seq<Proc>, ready: seq<seq<nat>>, cur: nat): (s: State)
    ensures |s.flags| == |s.priority| == |s.preemptible| == |ps| && s.ready == ready && s.cur == cur
    ensures forall i :: 0 <= i < |ps| ==>
      s.flags[i] == ps[i].flags && s.priority[i] == ps[i].priority && s.preemptible[i] == ps[i].preemptible
  {
    State(seq(|ps|, i requires 0 <= i < |ps| => ps[i].flags),
          seq(|ps|, i requires 0 <= i < |ps| => ps[i].priority),
          seq(|ps|, i requires 0 <= i < |ps| => ps[i].preemptible),
          ready, cur)
  }

  function NextReady(ps: seq<Proc>): (m: seq<int>)
    ensures |m| == |ps| && forall i :: 0 <= i < |m| ==> m[i] == ps[i].nextReady
  {
    seq(|ps|, i requires 0 <= i < |ps| => ps[i].nextReady)
  }

  function CallerLinks(ps: seq<Proc>): (m: seq<int>)
    ensures |m| == |ps| && forall i :: 0 <= i < |m| ==> m[i] == ps[i].qLink
  {
    seq(|ps|, i requires 0 <= i < |ps| => ps[i].qLink)
  }

  /** What a process is granted: the calls it may make, whom it may send to, and its time. */
  datatype Grant = Grant(trapMask: set<Call>, sendMask: set<nat>, timeLeft: nat, quantum: nat)

  function GrantOf(x: Proc): Grant {
    Grant(x.trapMask, x.sendMask, x.timeLeft, x.quantum)
  }

  function Grants(ps: seq<Proc>): (g: seq<Grant>)
    ensures |g| == |ps| && forall i :: 0 <= i < |g| ==> g[i] == GrantOf(ps[i])
  {
    seq(|ps|, i requires 0 <= i < |ps| => GrantOf(ps[i]))
  }

  lemma GrantKept(ps: seq<Proc>, p: nat, x: Proc)
    requires p < |ps|
    ensures Grants(ps[p := x]) == Grants(ps)[p := GrantOf(x)]
    ensures GrantOf(x) == GrantOf(ps[p]) ==> Grants(ps[p := x]) == Grants(ps)
  {
  }

  // ----- The threads -----

  function Last(q: seq<nat>): int {
    if q == [] then NULL else q[|q| - 1]
  }

  /** Head, tail and next links of run queue `q` spell out `ready[q]`; all on it have priority `q`. */
  ghost predicate ThreadAt(ps: seq<Proc>, ready: seq<seq<nat>>, head: seq<int>, tail: seq<int>, q: nat)
    requires |ready| == |head| == |tail| == NR_SCHED_QUEUES && q < NR_SCHED_QUEUES
  {
    && IsList(head[q], ready[q], NextReady(ps))
    && tail[q] == Last(ready[q])
    && forall p :: p in ready[q] ==> p < |ps| && ps[p].priority == q
  }

  ghost predicate Threaded(ps: seq<Proc>, ready: seq<seq<nat>>, head: seq<int>, tail: seq<int>) {
    && |ready| == |head| == |tail| == NR_SCHED_QUEUES
    && (forall p :: 0 <= p < |ps| ==> ps[p].priority < NR_SCHED_QUEUES)
    && forall q :: 0 <= q < NR_SCHED_QUEUES ==> ThreadAt(ps, ready, head, tail, q)
  }

  /** The caller queue of `d` spells out `callers[d]`, which is who sends to `d`; the others have no link. */
  ghost predicate LinkedAt(ps: seq<Proc>, callers: seq<seq<nat>>, d: nat)
    requires |callers| == |ps| && d < |ps|
  {
    && IsList(ps[d].callerQ, callers[d], CallerLinks(ps))
    && QueueAt(Ports(ps, callers), d)
    && (Sending !in ps[d].flags ==> ps[d].qLink == NULL)
  }

  ghost predicate Linked(ps: seq<Proc>, callers: seq<seq<nat>>) {
    |callers| == |ps| && forall d :: 0 <= d < |ps| ==> LinkedAt(ps, callers, d)
  }

  /** Run queue `q` is well threaded and holds runnable processes of priority `q`. */
  ghost predicate RightAt(ps: seq<Proc>, ready: seq<seq<nat>>, head: seq<int>, tail: seq<int>, q: nat)
    requires |ready| == |head| == |tail| == NR_SCHED_QUEUES && q < NR_SCHED_QUEUES
  {
    && IsList(head[q], ready[q], NextReady(ps))
    && tail[q] == Last(ready[q])
    && forall p: nat :: p in ready[q] ==> p < |ps| && ps[p].flags == {} && ps[p].priority == q
  }

  /** All run queues are right, and every runnable process is on one. */
  ghost predicate AllRight(ps: seq<Proc>, ready: seq<seq<nat>>, head: seq<int>, tail: seq<int>) {
    && |ready| == |head| == |tail| == NR_SCHED_QUEUES
    && (forall p :: 0 <= p < |ps| && ps[p].flags == {} ==> OnSome(ready, p))
    && forall q :: 0 <= q < NR_SCHED_QUEUES ==> RightAt(ps, ready, head, tail, q)
  }

  /** The run queues are right, for some lists. */
  ghost predicate Rightful(ps: seq<Proc>, head: seq<int>, tail: seq<int>) {
    exists ready :: AllRight(ps, ready, head, tail)
  }

  lemma SoundIsRight(ps: seq<Proc>, ready: seq<seq<nat>>, cur: nat, head: seq<int>, tail: seq<int>)
    requires Threaded(ps, ready, head, tail) && ReadyOk(View(ps, ready, cur))
    ensures Rightful(ps, head, tail)
  {
    forall q | 0 <= q < NR_SCHED_QUEUES
      ensures RightAt(ps, ready, head, tail, q)
    {
      assert ThreadAt(ps, ready, head, tail, q) && ReadyAt(View(ps, ready, cur), q);
    }
    forall p | 0 <= p < |ps| && ps[p].flags == {}
      ensures OnSome(ready, p)
    {
      assert ReadyAt(View(ps, ready, cur), ps[p].priority);
      assert p in ready[ps[p].priority];
    }
    assert AllRight(ps, ready, head, tail);
  }

  /** A runnable process whose priority is no queue makes the run queues wrong, however they are linked. */
  lemma NoQueueIsWrong(ps: seq<Proc>, head: seq<int>, tail: seq<int>, p: nat)
    requires p < |ps| && ps[p].flags == {} && ps[p].priority >= NR_SCHED_QUEUES
    ensures !Rightful(ps, head, tail)
  {
    if ready :| AllRight(ps, ready, head, tail) {
      var q :| 0 <= q < |ready| && p in ready[q];
      assert RightAt(ps, ready, head, tail, q);
    }
  }

  // ----- Scheduling steps -----

  /** Two records that differ at most in what scheduling changes: the flags and the run-queue link. */
  predicate SameMail(x: Proc, y: Proc) {
    x == y.(flags := x.flags, nextReady := x.nextReady)
  }

  ghost predicate SameMails(ps: seq<Proc>, ps': seq<Proc>) {
    |ps| == |ps'| && forall i :: 0 <= i < |ps| ==> SameMail(ps'[i], ps[i])
  }

  lemma GrantsKept(ps: seq<Proc>, ps': seq<Proc>)
    requires SameMails(ps, ps')
    ensures Grants(ps') == Grants(ps)
  {
    assert forall i :: 0 <= i < |ps| ==> SameMail(ps'[i], ps[i]) ==> Grants(ps')[i] == Grants(ps)[i];
  }

  /** A change away from the threads leaves them as they are. */
  lemma ThreadsStay(ps: seq<Proc>, ps': seq<Proc>, ready: seq<seq<nat>>, head: seq<int>, tail: seq<int>)
    requires Threaded(ps, ready, head, tail) && |ps| == |ps'|
    requires forall i :: 0 <= i < |ps| ==> ps'[i].nextReady == ps[i].nextReady && ps'[i].priority == ps[i].priority
    ensures Threaded(ps', ready, head, tail)
  {
    assert NextReady(ps) == NextReady(ps');
    forall q | 0 <= q < NR_SCHED_QUEUES
      ensures ThreadAt(ps', ready, head, tail, q)
    {
      assert ThreadAt(ps, ready, head, tail, q);
    }
  }

  /** A change to run queue `q` alone: other queues hold none of the records that changed. */
  lemma OtherThreads(ps: seq<Proc>, ps': seq<Proc>, ready: seq<seq<nat>>, head: seq<int>, tail: seq<int>,
                     q: nat, list: seq<nat>, h: int, t: int)
    requires Threaded(ps, ready, head, tail) && |ps| == |ps'| && q < NR_SCHED_QUEUES
    requires forall i :: 0 <= i < |ps| ==>
      ps'[i].priority == ps[i].priority && (ps[i].priority != q ==> ps'[i].nextReady == ps[i].nextReady)
    requires IsList(h, list, NextReady(ps')) && t == Last(list)
    requires forall p :: p in list ==> p < |ps| && ps[p].priority == q
    ensures Threaded(ps', ready[q := list], head[q := h], tail[q := t])
  {
    var ready', head', tail' := ready[q := list], head[q := h], tail[q := t];
    forall r | 0 <= r < NR_SCHED_QUEUES
      ensures ThreadAt(ps', ready', head', tail', r)
    {
      assert ThreadAt(ps, ready, head, tail, r);
      if r != q {
        Frame(head[r], ready[r], NextReady(ps), NextReady(ps'));
      }
    }
  }

  /** The records after `p` is chained behind `t`, the last process of its run queue, if there is one. */
  function Appended(ps: seq<Proc>, t: int, p: nat): seq<Proc>
    requires p < |ps| && t < |ps|
  {
    var ps1 := if t < 0 then ps else ps[t := ps[t].(nextReady := p)];
    ps1[p := ps1[p].(nextReady := NULL)]
  }

  lemma AppendShows(ps: seq<Proc>, ready: seq<seq<nat>>, cur: nat, q: nat, list: seq<nat>, t: int, p: nat)
    requires p < |ps| && t < |ps| && q < |ready|
    ensures var ps' := Appended(ps, t, p);
      SameMails(ps, ps') && View(ps', ready[q := list], cur) == View(ps, ready, cur).(ready := ready[q := list])
  {
  }

  lemma AppendThread(ps: seq<Proc>, ready: seq<seq<nat>>, cur: nat, head: seq<int>, tail: seq<int>, p: nat)
    requires Threaded(ps, ready, head, tail) && p < |ps| && p !in ready[ps[p].priority]
    ensures var q := ps[p].priority; var list := ready[q] + [p];
      && tail[q] < |ps| && ((head[q] == NULL) <==> tail[q] < 0)
      && var ps' := Appended(ps, tail[q], p);
      && Threaded(ps', ready[q := list], if head[q] == NULL then head[q := p] else head, tail[q := p])
      && SameMails(ps, ps')
      && View(ps', ready[q := list], cur) == View(ps, ready, cur).(ready := ready[q := list])
  {
    var q := ps[p].priority;
    var list := ready[q] + [p];
    assert ThreadAt(ps, ready, head, tail, q);
    hide Threaded, IsList, SameMails, View;
    Append(head[q], ready[q], NextReady(ps), p);
    if ready[q] == [] {
      var ps' := Appended(ps, NULL, p);
      assert NextReady(ps') == NextReady(ps)[p := NULL];
      assert list == [p];
      OtherThreads(ps, ps', ready, head, tail, q, list, p, p);
      AppendShows(ps, ready, cur, q, list, NULL, p);
    } else {
      var t := ready[q][|ready[q]| - 1];
      assert t in ready[q];
      var ps' := Appended(ps, t, p);
      assert NextReady(ps') == NextReady(ps)[t := p][p := NULL];
      OtherThreads(ps, ps', ready, head, tail, q, list, head[q], p);
      AppendShows(ps, ready, cur, q, list, t, p);
      assert head[q := head[q]] == head;
    }
  }

  lemma PrependThread(ps: seq<Proc>, ready: seq<seq<nat>>, cur: nat, head: seq<int>, tail: seq<int>, p: nat)
    requires Threaded(ps, ready, head, tail) && p < |ps| && p !in ready[ps[p].priority]
    ensures var q := ps[p].priority; var list := [p] + ready[q];
      && ((head[q] == NULL) <==> ready[q] == [])
      && var ps' := ps[p := ps[p].(nextReady := head[q])];
      && Threaded(ps', ready[q := list], head[q := p], if head[q] == NULL then tail[q := p] else tail)
      && SameMails(ps, ps')
      && View(ps', ready[q := list], cur) == View(ps, ready, cur).(ready := ready[q := list])
  {
    var q := ps[p].priority;
    var list := [p] + ready[q];
    assert ThreadAt(ps, ready, head, tail, q);
    Prepend(head[q], ready[q], NextReady(ps), p);
    var ps' := ps[p := ps[p].(nextReady := head[q])];
    assert NextReady(ps') == NextReady(ps)[p := head[q]];
    OtherThreads(ps, ps', ready, head, tail, q, list, p, Last(list));
    assert tail[q := tail[q]] == tail;
  }

  /** A change of one process's flags. */
  lemma FlagsThread(ps: seq<Proc>, ready: seq<seq<nat>>, cur: nat, head: seq<int>, tail: seq<int>, p: nat, flags: set<Rts>)
    requires Threaded(ps, ready, head, tail) && p < |ps|
    ensures var ps' := ps[p := ps[p].(flags := flags)]; var s := View(ps, ready, cur);
      && Threaded(ps', ready, head, tail) && SameMails(ps, ps')
      && View(ps', ready, cur) == s.(flags := s.flags[p := flags])
  {
    ThreadsStay(ps, ps[p := ps[p].(flags := flags)], ready, head, tail);
  }

  lemma MailsChain(ps: seq<Proc>, ps1: seq<Proc>, ps2: seq<Proc>)
    requires SameMails(ps, ps1) && SameMails(ps1, ps2)
    ensures SameMails(ps, ps2)
  {
    forall i | 0 <= i < |ps|
      ensures SameMail(ps2[i], ps[i])
    {
      assert SameMail(ps1[i], ps[i]) && SameMail(ps2[i], ps1[i]);
    }
  }

  lemma {:induction false} RemoveIsWithout(q: seq<nat>, p: nat, k: nat)
    requires k < |q| && q[k] == p && forall j :: 0 <= j < k ==> q[j] != p
    ensures Remove(q, p) == Without(q, k)
  {
    if k > 0 {
      RemoveIsWithout(q[1..], p, k - 1);
      assert Without(q, k) == [q[0]] + Without(q[1..], k - 1);
    }
  }

  lemma {:induction false} RemoveAbsent(q: seq<nat>, p: nat)
    requires p !in q
    ensures Remove(q, p) == q
  {
    if q != [] {
      RemoveAbsent(q[1..], p);
      assert q == [q[0]] + q[1..];
    }
  }

  /** The records after the process behind `b`, or at the head of its run queue, is taken out. */
  function Skipped(ps: seq<Proc>, b: int, p: nat): seq<Proc>
    requires p < |ps| && b < |ps|
  {
    if b < 0 then ps else ps[b := ps[b].(nextReady := ps[p].nextReady)]
  }

  /** Unlinking the `k`-th process of a run queue. */
  lemma UnlinkThread(ps: seq<Proc>, ready: seq<seq<nat>>, cur: nat, head: seq<int>, tail: seq<int>, q: nat, k: nat, b: int)
    requires Threaded(ps, ready, head, tail) && q < NR_SCHED_QUEUES && k < |ready[q]|
    requires b == if k == 0 then NULL else ready[q][k - 1]
    ensures var list := Without(ready[q], k); var p := ready[q][k];
      && p < |ps| && b < |ps|
      && var ps' := Skipped(ps, b, p);
      && Threaded(ps', ready[q := list], if b < 0 then head[q := ps[p].nextReady] else head,
                  if p == tail[q] then tail[q := b] else tail)
      && SameMails(ps, ps')
      && View(ps', ready[q := list], cur) == View(ps, ready, cur).(ready := ready[q := list])
  {
    var list := Without(ready[q], k);
    var p := ready[q][k];
    assert ThreadAt(ps, ready, head, tail, q);
    assert p in ready[q];
    Unlink(head[q], ready[q], NextReady(ps), k);
    WithoutOne(ready[q], k);
    assert p == tail[q] <==> k == |ready[q]| - 1;
    assert tail[q := tail[q]] == tail && head[q := head[q]] == head;
    if k == 0 {
      OtherThreads(ps, ps, ready, head, tail, q, list, ps[p].nextReady, Last(list));
    } else {
      assert b in ready[q];
      var ps' := Skipped(ps, b, p);
      assert NextReady(ps') == NextReady(ps)[b := ps[p].nextReady];
      OtherThreads(ps, ps', ready, head, tail, q, list, head[q], Last(list));
    }
  }

  // ----- Caller queues -----

  /** Whether and to whom a record sends. */
  predicate SameSend(x: Proc, y: Proc) {
    (Sending in x.flags <==> Sending in y.flags) && x.sendTo == y.sendTo
  }

  predicate SameLinks(x: Proc, y: Proc) {
    x.callerQ == y.callerQ && x.qLink == y.qLink
  }

  lemma CallersStay(ps: seq<Proc>, ps': seq<Proc>, callers: seq<seq<nat>>)
    requires Linked(ps, callers) && |ps| == |ps'|
    requires forall i :: 0 <= i < |ps| ==> SameSend(ps'[i], ps[i]) && SameLinks(ps'[i], ps[i])
    ensures Linked(ps', callers)
  {
    assert CallerLinks(ps) == CallerLinks(ps');
    forall d | 0 <= d < |ps|
      ensures LinkedAt(ps', callers, d)
    {
      assert LinkedAt(ps, callers, d);
      QueueFrame(Ports(ps, callers), Ports(ps', callers), d);
    }
  }

  /** Whoever is on one caller queue is on no other. */
  lemma OneQueue(ps: seq<Proc>, callers: seq<seq<nat>>, d: nat, e: nat, p: nat)
    requires Linked(ps, callers) && d < |ps| && e < |ps| && p in callers[d]
    ensures p < |ps| && Sending in ps[p].flags && (p in callers[e] ==> d == e)
  {
    assert LinkedAt(ps, callers, d) && LinkedAt(ps, callers, e);
    assert SendsTo(Ports(ps, callers), p, d);
  }

  /** The records after `c`, which has begun to send, is put at the end of the caller queue of `d`. */
  function Chained(ps: seq<Proc>, q: seq<nat>, c: nat, d: nat): seq<Proc>
    requires c < |ps| && d < |ps| && (q != [] ==> q[|q| - 1] < |ps|)
  {
    if q == [] then ps[d := ps[d].(callerQ := c)]
    else ps[q[|q| - 1] := ps[q[|q| - 1]].(qLink := c)]
  }

  lemma ChainGrants(ps: seq<Proc>, q: seq<nat>, c: nat, d: nat)
    requires c < |ps| && d < |ps| && (q != [] ==> q[|q| - 1] < |ps|)
    ensures Grants(Chained(ps, q, c, d)) == Grants(ps)
  {
  }

  /** Queues that hold the same processes as before, but for `p` joining or leaving the queue of `d`. */
  lemma QueuesFollowSends(ps: seq<Proc>, ps': seq<Proc>, callers: seq<seq<nat>>, callers': seq<seq<nat>>, d: nat, list: seq<nat>, p: nat)
    requires Linked(ps, callers) && |ps| == |ps'| && d < |ps| && p < |ps|
    requires callers' == callers[d := list] && Distinct(list)
    requires forall x: nat :: x in list <==> (if x == p then SendsTo(Ports(ps', callers), p, d) else x in callers[d])
    requires forall i :: 0 <= i < |ps| && i != p ==> SameSend(ps'[i], ps[i])
    requires forall e: nat :: e != d ==> SendsTo(Ports(ps', callers), p, e) == SendsTo(Ports(ps, callers), p, e)
    ensures forall e :: 0 <= e < |ps| ==> QueueAt(Ports(ps', callers'), e)
  {
    var t, u := Ports(ps, callers), Ports(ps', callers');
    forall e | 0 <= e < |ps|
      ensures QueueAt(u, e)
    {
      assert LinkedAt(ps, callers, e);
      forall x: nat
        ensures x in callers'[e] <==> SendsTo(u, x, e)
      {
        assert x in callers[e] <==> SendsTo(t, x, e);
        assert SendsTo(u, x, e) == SendsTo(Ports(ps', callers), x, e);
      }
    }
  }

  lemma ChainCaller(ps: seq<Proc>, ps1: seq<Proc>, callers: seq<seq<nat>>, c: nat, d: nat)
    requires Linked(ps, callers) && |ps| == |ps1| && c < |ps| && d < |ps|
    requires Sending !in ps[c].flags && Sending in ps1[c].flags && ps1[c].sendTo == d
    requires forall i :: 0 <= i < |ps| ==> SameLinks(ps1[i], ps[i]) && (i != c ==> SameSend(ps1[i], ps[i]))
    ensures var q := callers[d];
      && IsList(ps[d].callerQ, q, CallerLinks(ps))
      && (q != [] ==> q[|q| - 1] < |ps|)
      && Linked(Chained(ps1, q, c, d), callers[d := q + [c]])
  {
    var q := callers[d];
    assert LinkedAt(ps, callers, d) && LinkedAt(ps, callers, c);
    if c in q { OneQueue(ps, callers, d, d, c); }
    Append(ps[d].callerQ, q, CallerLinks(ps), c);
    var ps', callers' := Chained(ps1, q, c, d), callers[d := q + [c]];
    var m := CallerLinks(ps');
    assert m == if q == [] then CallerLinks(ps) else CallerLinks(ps)[q[|q| - 1] := c];
    assert m[c := NULL] == m;
    assert q == [] ==> q + [c] == [c];
    QueuesFollowSends(ps, ps', callers, callers', d, q + [c], c);
    forall e | 0 <= e < |ps|
      ensures LinkedAt(ps', callers', e)
    {
      assert LinkedAt(ps, callers, e);
      if e != d {
        OtherQueue(ps, ps', callers, d, e, if q == [] then c else q[|q| - 1]);
      }
      if q != [] { OneQueue(ps, callers, d, d, q[|q| - 1]); }
    }
  }

  /** A changed link of one on, or now leaving, the queue of `d` is no part of the queue of `e`. */
  lemma OtherQueue(ps: seq<Proc>, ps': seq<Proc>, callers: seq<seq<nat>>, d: nat, e: nat, x: nat)
    requires Linked(ps, callers) && |ps| == |ps'| && d < |ps| && e < |ps| && d != e
    requires ps'[e].callerQ == ps[e].callerQ
    requires forall i :: 0 <= i < |ps| && i !in callers[d] && i != x ==> ps'[i].qLink == ps[i].qLink
    requires x in callers[d] || (x < |ps| && ps'[x].qLink == ps[x].qLink)
    ensures IsList(ps'[e].callerQ, callers[e], CallerLinks(ps'))
  {
    assert LinkedAt(ps, callers, e);
    forall p | p in callers[e] && p < |ps|
      ensures CallerLinks(ps')[p] == CallerLinks(ps)[p]
    {
      OneQueue(ps, callers, e, d, p);
    }
    Frame(ps[e].callerQ, callers[e], CallerLinks(ps), CallerLinks(ps'));
  }

  /** The records after the `k`-th caller of `c` is unlinked. */
  function Unchained(ps: seq<Proc>, q: seq<nat>, c: nat, k: nat): seq<Proc>
    requires c < |ps| && k < |q| && q[k] < |ps| && (k > 0 ==> q[k - 1] < |ps|)
  {
    var p := q[k];
    var u := if k == 0 then ps[c := ps[c].(callerQ := ps[p].qLink)]
             else ps[q[k - 1] := ps[q[k - 1]].(qLink := ps[p].qLink)];
    u[p := u[p].(qLink := NULL)]
  }

  lemma UnchainGrants(ps: seq<Proc>, q: seq<nat>, c: nat, k: nat)
    requires c < |ps| && k < |q| && q[k] < |ps| && (k > 0 ==> q[k - 1] < |ps|)
    ensures Grants(Unchained(ps, q, c, k)) == Grants(ps)
  {
  }

  lemma UnchainCaller(ps: seq<Proc>, ps1: seq<Proc>, callers: seq<seq<nat>>, c: nat, k: nat)
    requires Linked(ps, callers) && |ps| == |ps1| && c < |ps| && k < |callers[c]|
    requires callers[c][k] < |ps| ==> Sending !in ps1[callers[c][k]].flags
    requires forall i :: 0 <= i < |ps| ==>
      SameLinks(ps1[i], ps[i]) && (i != callers[c][k] ==> SameSend(ps1[i], ps[i]))
    ensures var q := callers[c];
      && q[k] < |ps| && (k > 0 ==> q[k - 1] < |ps|)
      && Linked(Unchained(ps1, q, c, k), callers[c := Without(q, k)])
  {
    hide Without, PortOk, MeetsAt, NotifiedAt;
    var q := callers[c];
    var p, list := q[k], Without(q, k);
    OneQueue(ps, callers, c, c, p);
    assert LinkedAt(ps, callers, c);
    if k > 0 { OneQueue(ps, callers, c, c, q[k - 1]); }
    Unlink(ps[c].callerQ, q, CallerLinks(ps), k);
    WithoutOne(q, k);
    var ps', callers' := Unchained(ps1, q, c, k), callers[c := list];
    var m := if k == 0 then CallerLinks(ps) else CallerLinks(ps)[q[k - 1] := ps[p].qLink];
    assert CallerLinks(ps') == m[p := NULL];
    Frame(ps'[c].callerQ, list, m, m[p := NULL]);
    assert SendsTo(Ports(ps, callers), p, c);
    QueuesFollowSends(ps, ps', callers, callers', c, list, p);
    forall e | 0 <= e < |ps|
      ensures LinkedAt(ps', callers', e)
    {
      assert LinkedAt(ps, callers, e);
      if e != c {
        OtherQueue(ps, ps', callers, c, e, p);
      }
    }
  }

  // ----- How steps show in the views -----

  /** Two records the scheduler cannot tell apart. */
  predicate SameTurn(x: Proc, y: Proc) {
    x.flags == y.flags && x.priority == y.priority && x.preemptible == y.preemptible && x.nextReady == y.nextReady
  }

  ghost predicate SameTurns(ps: seq<Proc>, ps': seq<Proc>) {
    |ps| == |ps'| && forall i :: 0 <= i < |ps| ==> SameTurn(ps'[i], ps[i])
  }

  lemma TurnsStay(ps: seq<Proc>, ps': seq<Proc>, ready: seq<seq<nat>>, cur: nat, head: seq<int>, tail: seq<int>)
    requires Threaded(ps, ready, head, tail) && SameTurns(ps, ps')
    ensures Threaded(ps', ready, head, tail) && View(ps', ready, cur) == View(ps, ready, cur)
  {
    assert forall i :: 0 <= i < |ps| ==> SameTurn(ps'[i], ps[i]);
    ThreadsStay(ps, ps', ready, head, tail);
  }

  /** Of the flags that message passing looks at, exactly `f` at `p` has become `on`. */
  ghost predicate OneFlag(ps: seq<Proc>, ps': seq<Proc>, p: nat, f: Rts, on: bool) {
    && SameMails(ps, ps')
    && forall i, g :: 0 <= i < |ps| && g in {Sending, Receiving, NoEndpoint} ==>
      (g in ps'[i].flags <==> if i == p && g == f then on else g in ps[i].flags)
  }

  lemma AfterSet(ps: seq<Proc>, ps': seq<Proc>, ready: seq<seq<nat>>, ready': seq<seq<nat>>, cur: nat, p: nat, f: Rts)
    requires SameMails(ps, ps') && WellFormed(View(ps, ready, cur)) && p < |ps|
    requires View(ps', ready', cur) == Set(View(ps, ready, cur), p, f)
    ensures OneFlag(ps, ps', p, f, true)
  {
    var s, u := View(ps, ready, cur), View(ps', ready', cur);
    assert u.flags == s.flags[p := s.flags[p] + {f}];
    assert forall i :: 0 <= i < |ps| ==> u.flags[i] == ps'[i].flags && s.flags[i] == ps[i].flags;
  }

  lemma AfterUnset(ps: seq<Proc>, ps': seq<Proc>, ready: seq<seq<nat>>, ready': seq<seq<nat>>, cur: nat, p: nat, f: Rts)
    requires SameMails(ps, ps') && WellFormed(View(ps, ready, cur)) && p < |ps|
    requires View(ps', ready', cur) == Unset(View(ps, ready, cur), p, f)
    ensures OneFlag(ps, ps', p, f, false)
  {
    var s, u := View(ps, ready, cur), View(ps', ready', cur);
    assert u.flags == s.flags[p := s.flags[p] - {f}]
      || u.flags == s.flags[p := s.flags[p] - {f}][cur := s.flags[p := s.flags[p] - {f}][cur] + {Preempted}];
    assert forall i :: 0 <= i < |ps| ==> u.flags[i] == ps'[i].flags && s.flags[i] == ps[i].flags;
  }

  lemma RecordShows(ps: seq<Proc>, callers: seq<seq<nat>>, p: nat, x: Proc)
    requires |callers| == |ps| && p < |ps|
    ensures Ports(ps[p := x], callers) == Ports(ps, callers)[p := PortOf(x, callers[p])]
  {
  }

  lemma QueueShows(ps: seq<Proc>, callers: seq<seq<nat>>, d: nat, q: seq<nat>)
    requires |callers| == |ps| && d < |ps|
    ensures var t := Ports(ps, callers); Ports(ps, callers[d := q]) == t[d := t[d].(callers := q)]
  {
  }

  function WithFlag(x: Port, f: Rts, on: bool): Port {
    match f
    case Sending => x.(sending := on)
    case Receiving => x.(receiving := on)
    case NoEndpoint => x.(noEndpoint := on)
    case _ => x
  }

  lemma FlagShows(ps: seq<Proc>, ps': seq<Proc>, callers: seq<seq<nat>>, p: nat, f: Rts, on: bool)
    requires OneFlag(ps, ps', p, f, on) && |callers| == |ps| && p < |ps|
    ensures var t := Ports(ps, callers); Ports(ps', callers) == t[p := WithFlag(t[p], f, on)]
    ensures forall i :: 0 <= i < |ps| ==> SameLinks(ps'[i], ps[i]) && (i != p || f != Sending ==> SameSend(ps'[i], ps[i]))
  {
    var t := Ports(ps, callers);
    forall i | 0 <= i < |ps|
      ensures SameLinks(ps'[i], ps[i]) && (i != p || f != Sending ==> SameSend(ps'[i], ps[i]))
      ensures PortOf(ps'[i], callers[i]) == if i == p then WithFlag(t[p], f, on) else t[i]
    {
      assert SameMail(ps'[i], ps[i]);
    }
  }

  /** A flag of no concern to message passing changed. */
  lemma OtherFlag(ps: seq<Proc>, ps': seq<Proc>, callers: seq<seq<nat>>, p: nat, f: Rts, on: bool)
    requires OneFlag(ps, ps', p, f, on) && Linked(ps, callers) && p < |ps| && f !in {Sending, Receiving, NoEndpoint}
    ensures Linked(ps', callers) && Ports(ps', callers) == Ports(ps, callers)
  {
    FlagShows(ps, ps', callers, p, f, on);
    CallersStay(ps, ps', callers);
  }

  /** Handing a message to `d`, and waking it. */
  lemma AfterDelivery(ps: seq<Proc>, ps': seq<Proc>, callers: seq<seq<nat>>, d: nat, m: Message, replyPend: bool)
    requires Linked(ps, callers) && d < |ps|
    requires OneFlag(ps[d := ps[d].(deliverMsg := m, deliver := true, replyPend := replyPend)], ps', d, Receiving, false)
    ensures Linked(ps', callers)
    ensures var u := Delivered(Ports(ps, callers), d, m);
      Ports(ps', callers) == u[d := u[d].(replyPend := replyPend)]
  {
    var ps1 := ps[d := ps[d].(deliverMsg := m, deliver := true, replyPend := replyPend)];
    FlagShows(ps1, ps', callers, d, Receiving, false);
    var t := Ports(ps, callers);
    assert Ports(ps1, callers) == t[d := t[d].(deliverMsg := m, deliver := true, replyPend := replyPend)];
    CallersStay(ps, ps1, callers);
    CallersStay(ps1, ps', callers);
  }

  /** Blocking `c` on a receive. */
  lemma AfterBlocking(ps: seq<Proc>, ps': seq<Proc>, callers: seq<seq<nat>>, c: nat, src: Endpoint)
    requires Linked(ps, callers) && c < |ps|
    requires OneFlag(ps[c := ps[c].(getFrom := src)], ps', c, Receiving, true)
    ensures Linked(ps', callers)
    ensures var t := Ports(ps, callers);
      Ports(ps', callers) == t[c := t[c].(getFrom := src, receiving := true)]
  {
    var ps1 := ps[c := ps[c].(getFrom := src)];
    FlagShows(ps1, ps', callers, c, Receiving, true);
    var t := Ports(ps, callers);
    assert Ports(ps1, callers) == t[c := t[c].(getFrom := src)];
    CallersStay(ps, ps1, callers);
    CallersStay(ps1, ps', callers);
  }

  /** Two records that differ at most in the links of the caller queues. */
  predicate SameButLinks(x: Proc, y: Proc) {
    x == y.(callerQ := x.callerQ, qLink := x.qLink)
  }

  /** Neither view looks at the links. */
  lemma LinksUnseen(ps: seq<Proc>, ps': seq<Proc>, callers: seq<seq<nat>>)
    requires |ps| == |ps'| == |callers| && forall i :: 0 <= i < |ps| ==> SameButLinks(ps'[i], ps[i])
    ensures SameTurns(ps, ps') && Ports(ps', callers) == Ports(ps, callers)
  {
    forall i | 0 <= i < |ps|
      ensures SameTurn(ps'[i], ps[i]) && PortOf(ps'[i], callers[i]) == PortOf(ps[i], callers[i])
    {
      assert SameButLinks(ps'[i], ps[i]);
    }
  }

  /** Setting the flag and the destination of `c`, which is about to be queued. */
  lemma QueueingPorts(ps: seq<Proc>, ps1: seq<Proc>, callers: seq<seq<nat>>, c: nat, d: nat, body: int)
    requires |callers| == |ps| && c < |ps| && d < |ps|
    requires OneFlag(ps[c := ps[c].(sendBody := body)], ps1, c, Sending, true)
    ensures var q := callers[d]; var t := Ports(ps, callers); var ps2 := ps1[c := ps1[c].(sendTo := d)];
      && (forall i :: 0 <= i < |ps| ==> SameLinks(ps2[i], ps[i]) && (i != c ==> SameSend(ps2[i], ps[i])))
      && var u := t[c := t[c].(sendBody := body, sending := true, sendTo := d)];
      Ports(ps2, callers[d := q + [c]]) == u[d := u[d].(callers := u[d].callers + [c])]
  {
    var ps0 := ps[c := ps[c].(sendBody := body)];
    var ps2 := ps1[c := ps1[c].(sendTo := d)];
    FlagShows(ps0, ps1, callers, c, Sending, true);
    var t := Ports(ps, callers);
    RecordShows(ps, callers, c, ps0[c]);
    RecordShows(ps1, callers, c, ps2[c]);
    assert PortOf(ps2[c], callers[c]) == t[c].(sendBody := body, sending := true, sendTo := d);
    assert Ports(ps2, callers) == t[c := t[c].(sendBody := body, sending := true, sendTo := d)];
    QueueShows(ps2, callers, d, callers[d] + [c]);
  }

  /** Blocking `c` on a send to `d`: `ps1` is when its flag is set, then it is put on the queue. */
  lemma AfterQueueing(ps: seq<Proc>, ps1: seq<Proc>, callers: seq<seq<nat>>, c: nat, d: nat, body: int)
    requires Linked(ps, callers) && c < |ps| && d < |ps| && Sending !in ps[c].flags
    requires OneFlag(ps[c := ps[c].(sendBody := body)], ps1, c, Sending, true)
    ensures var q := callers[d]; var t := Ports(ps, callers); var ps2 := ps1[c := ps1[c].(sendTo := d)];
      && IsList(ps2[d].callerQ, q, CallerLinks(ps2))
      && (q != [] ==> q[|q| - 1] < |ps|)
      && var ps' := Chained(ps2, q, c, d);
      && SameTurns(ps2, ps')
      && Linked(ps', callers[d := q + [c]])
      && var u := t[c := t[c].(sendBody := body, sending := true, sendTo := d)];
      Ports(ps', callers[d := q + [c]]) == u[d := u[d].(callers := u[d].callers + [c])]
  {
    var ps2 := ps1[c := ps1[c].(sendTo := d)];
    QueueingPorts(ps, ps1, callers, c, d, body);
    ChainCaller(ps, ps2, callers, c, d);
    assert CallerLinks(ps) == CallerLinks(ps2);
    var ps' := Chained(ps2, callers[d], c, d);
    LinksUnseen(ps2, ps', callers[d := callers[d] + [c]]);
  }

  /** It does not matter when the caller leaves the queue. */
  lemma TakingInTurn(t: Table, c: nat, k: nat)
    requires c < |t| && k < |t[c].callers| && t[c].callers[k] < |t| && t[c].callers[k] != c
    ensures var p := t[c].callers[k];
      var u := t[c := t[c].(deliverMsg := Plain(p, t[p].sendBody), deliver := true)];
      TakeCaller(t, c, k) == u[p := u[p].(sending := false)][c := u[c].(callers := Without(t[c].callers, k))]
  {
  }

  lemma TakingLinks(ps: seq<Proc>, ps2: seq<Proc>, callers: seq<seq<nat>>, c: nat, k: nat)
    requires |callers| == |ps| && c < |ps| && k < |callers[c]| && callers[c][k] < |ps|
    requires var p := callers[c][k];
      OneFlag(ps[c := ps[c].(deliverMsg := Plain(p, ps[p].sendBody), deliver := true)], ps2, p, Sending, false)
    ensures forall i :: 0 <= i < |ps| ==> SameLinks(ps2[i], ps[i]) && (i != callers[c][k] ==> SameSend(ps2[i], ps[i]))
  {
    hide OneFlag, Ports;
    var p := callers[c][k];
    FlagShows(ps[c := ps[c].(deliverMsg := Plain(p, ps[p].sendBody), deliver := true)], ps2, callers, p, Sending, false);
  }

  lemma TakingPorts(ps: seq<Proc>, ps2: seq<Proc>, callers: seq<seq<nat>>, c: nat, k: nat)
    requires |callers| == |ps| && c < |ps| && k < |callers[c]| && callers[c][k] < |ps| && callers[c][k] != c
    requires var p := callers[c][k];
      OneFlag(ps[c := ps[c].(deliverMsg := Plain(p, ps[p].sendBody), deliver := true)], ps2, p, Sending, false)
    ensures Ports(ps2, callers[c := Without(callers[c], k)]) == TakeCaller(Ports(ps, callers), c, k)
  {
    var p := callers[c][k];
    var ps1 := ps[c := ps[c].(deliverMsg := Plain(p, ps[p].sendBody), deliver := true)];
    var t := Ports(ps, callers);
    assert t[c] == PortOf(ps[c], callers[c]) && t[p] == PortOf(ps[p], callers[p]);
    hide Without, TakeCaller, Ports, OneFlag;
    FlagShows(ps1, ps2, callers, p, Sending, false);
    var u := t[c := t[c].(deliverMsg := Plain(p, ps[p].sendBody), deliver := true)];
    RecordShows(ps, callers, c, ps1[c]);
    QueueShows(ps2, callers, c, Without(callers[c], k));
    TakingInTurn(t, c, k);
  }

  /** Taking the message of the `k`-th caller of `c`: `ps2` is when it is copied and the caller woken. */
  lemma AfterTaking(ps: seq<Proc>, ps2: seq<Proc>, callers: seq<seq<nat>>, c: nat, k: nat)
    requires Linked(ps, callers) && c < |ps| && k < |callers[c]| && Sending !in ps[c].flags
    requires callers[c][k] < |ps|
    requires var p := callers[c][k];
      OneFlag(ps[c := ps[c].(deliverMsg := Plain(p, ps[p].sendBody), deliver := true)], ps2, p, Sending, false)
    ensures var q := callers[c];
      && (k > 0 ==> q[k - 1] < |ps|)
      && var ps' := Unchained(ps2, q, c, k);
      && SameTurns(ps2, ps')
      && Linked(ps', callers[c := Without(q, k)])
      && Ports(ps', callers[c := Without(q, k)]) == TakeCaller(Ports(ps, callers), c, k)
  {
    hide LinkedAt, Ports, TakeCaller, IsList, Without;
    var q := callers[c];
    OneQueue(ps, callers, c, c, q[k]);
    TakingLinks(ps, ps2, callers, c, k);
    TakingPorts(ps, ps2, callers, c, k);
    UnchainCaller(ps, ps2, callers, c, k);
    LinksUnseen(ps2, Unchained(ps2, q, c, k), callers[c := Without(q, k)]);
  }
}
