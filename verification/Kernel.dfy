/**
 The kernel's process table and run queues, changed in place. Every method does to its abstract
 views what `Ipc` and `Sched` say.
 */
module Kernel {
  import opened Links
  import opened Ipc
  import opened IpcSafety
  import IpcRights
  import IpcRuns
  import opened Sched
  import opened ProcTable
  import opened RunQueues

  class Kernel {
    const proc: array<Proc>
    const runHead: array<int>
    const runTail: array<int>
    const found: array<bool>
    const tasks: nat
    const cyclesPerMs: nat
    var cur: nat
    ghost var ready: seq<seq<nat>>
    ghost var callers: seq<seq<nat>>

    ghost function T(): Table
      requires |callers| == proc.Length
      reads this, proc
    {
      Ports(proc[..], callers)
    }

    ghost function S(): State
      reads this, proc
    {
      View(proc[..], ready, cur)
    }

    ghost function G(): seq<Grant>
      reads proc
    {
      Grants(proc[..])
    }

    /** The run queues are well threaded. */
    ghost predicate Sound()
      reads this, proc, runHead, runTail
    {
      && runHead != runTail
      && cur < proc.Length
      && Threaded(proc[..], ready, runHead[..], runTail[..])
    }

    ghost predicate Valid()
      reads this, proc, runHead, runTail
    {
      && Sound() && ReadyOk(S())
      && Linked(proc[..], callers)
    }

    // ----- Run queues -----

    method Enqueue(p: nat)
      requires Sound() && p < proc.Length && p !in ready[proc[p].priority]
      requires proc[p].flags == {}
      modifies this`ready, proc, runHead, runTail
      ensures Sound() && S() == Sched.Enqueue(old(S()), p)
      ensures SameMails(old(proc[..]), proc[..])
    {
      var q := proc[p].priority;
      AppendThread(proc[..], ready, cur, runHead[..], runTail[..], p);
      ghost var ps := Appended(proc[..], runTail[q], p);
      if runHead[q] == NULL {
        runHead[q], runTail[q] := p, p;
        proc[p] := proc[p].(nextReady := NULL);
      } else {
        var t := runTail[q];
        proc[t] := proc[t].(nextReady := p);
        runTail[q] := p;
        proc[p] := proc[p].(nextReady := NULL);
      }
      ready := ready[q := ready[q] + [p]];
      assert proc[..] == ps;
      if proc[cur].priority > proc[p].priority && proc[cur].preemptible {
        RtsSet(cur, Preempted);
        MailsChain(old(proc[..]), ps, proc[..]);
      }
    }

    method EnqueueHead(p: nat)
      requires Sound() && p < proc.Length && p !in ready[proc[p].priority]
      requires proc[p].flags == {} && proc[p].timeLeft > 0
      modifies this`ready, proc, runHead, runTail
      ensures Sound() && S() == Sched.EnqueueHead(old(S()), p)
      ensures SameMails(old(proc[..]), proc[..])
    {
      var q := proc[p].priority;
      PrependThread(proc[..], ready, cur, runHead[..], runTail[..], p);
      ghost var ps := proc[..][p := proc[p].(nextReady := runHead[q])];
      if runHead[q] == NULL {
        runHead[q], runTail[q] := p, p;
        proc[p] := proc[p].(nextReady := NULL);
      } else {
        proc[p] := proc[p].(nextReady := runHead[q]);
        runHead[q] := p;
      }
      ready := ready[q := [p] + ready[q]];
      assert proc[..] == ps;
    }

    method Dequeue(p: nat)
      requires Sound() && p < proc.Length && proc[p].flags != {}
      modifies this`ready, proc, runHead, runTail
      ensures Sound() && S() == Sched.Dequeue(old(S()), p)
      ensures SameMails(old(proc[..]), proc[..])
    {
      var q := proc[p].priority;
      ghost var list := ready[q];
      assert ThreadAt(proc[..], ready, runHead[..], runTail[..], q);
      var prev, x := NULL, runHead[q];
      ghost var k := 0;
      while x != NULL
        invariant k <= |list| && x == Node(list, k) && prev == (if k == 0 then NULL else list[k - 1])
        invariant forall j :: 0 <= j < k ==> list[j] != p
        decreases |list| - k
      {
        assert LinkAt(list, NextReady(proc[..]), k);
        if x == p {
          UnlinkThread(proc[..], ready, cur, runHead[..], runTail[..], q, k, prev);
          RemoveIsWithout(list, p, k);
          if prev == NULL {
            runHead[q] := proc[x].nextReady;
          } else {
            proc[prev] := proc[prev].(nextReady := proc[x].nextReady);
          }
          if p == runTail[q] {
            runTail[q] := prev;
          }
          ready := ready[q := Without(list, k)];
          assert proc[..] == Skipped(old(proc[..]), prev, p);
          return;
        }
        prev, x := x, proc[x].nextReady;
        k := k + 1;
      }
      RemoveAbsent(list, p);
      assert ready[q := list] == ready;
    }

    method RtsSet(p: nat, f: Rts)
      requires Sound() && p < proc.Length
      modifies this`ready, proc, runHead, runTail
      ensures Sound() && S() == Set(old(S()), p, f)
      ensures SameMails(old(proc[..]), proc[..])
    {
      var rts := proc[p].flags;
      FlagsThread(proc[..], ready, cur, runHead[..], runTail[..], p, rts + {f});
      ghost var ps := proc[..][p := proc[p].(flags := rts + {f})];
      proc[p] := proc[p].(flags := rts + {f});
      assert proc[..] == ps;
      if rts == {} {
        Dequeue(p);
        MailsChain(old(proc[..]), ps, proc[..]);
      }
    }

    method RtsUnset(p: nat, f: Rts)
      requires Sound() && p < proc.Length && ReadyOk(S())
      modifies this`ready, proc, runHead, runTail
      ensures Sound() && S() == Unset(old(S()), p, f)
      ensures SameMails(old(proc[..]), proc[..])
    {
      var rts := proc[p].flags;
      FlagsThread(proc[..], ready, cur, runHead[..], runTail[..], p, rts - {f});
      ghost var ps := proc[..][p := proc[p].(flags := rts - {f})];
      assert ReadyAt(S(), proc[p].priority);
      proc[p] := proc[p].(flags := rts - {f});
      assert proc[..] == ps;
      if rts != {} && proc[p].flags == {} {
        Enqueue(p);
        MailsChain(old(proc[..]), ps, proc[..]);
      }
    }

    method PickProc() returns (p: int)
      requires Sound()
      ensures p == Best(ready, 0)
    {
      for q := 0 to NR_SCHED_QUEUES
        invariant Best(ready, 0) == Best(ready, q)
      {
        assert ThreadAt(proc[..], ready, runHead[..], runTail[..], q);
        if runHead[q] != NULL {
          return runHead[q];
        }
      }
      p := NULL;
    }

    /** The first half of choosing anew: a preempted process returns to its queue. */
    method PutBackPreempted()
      requires Valid() && proc[cur].flags != {}
      modifies this`ready, proc, runHead, runTail
      ensures Sound() && S() == PutBack(old(S()), old(proc[cur].timeLeft > 0))
      ensures SameMails(old(proc[..]), proc[..])
    {
      if Preempted in proc[cur].flags {
        assert ReadyAt(S(), proc[cur].priority);
        ghost var ps := proc[..][cur := proc[cur].(flags := proc[cur].flags - {Preempted})];
        FlagsThread(proc[..], ready, cur, runHead[..], runTail[..], cur, proc[cur].flags - {Preempted});
        proc[cur] := proc[cur].(flags := proc[cur].flags - {Preempted});
        assert proc[..] == ps;
        if proc[cur].flags == {} {
          if proc[cur].timeLeft > 0 {
            EnqueueHead(cur);
          } else {
            Enqueue(cur);
          }
          MailsChain(old(proc[..]), ps, proc[..]);
        }
      }
    }

    /** Before returning to user mode; `false` is the idle loop. */
    method SwitchToUser() returns (running: bool)
      requires Valid()
      modifies this`ready, this`cur, proc, runHead, runTail
      ensures Valid() && T() == old(T())
      ensures (S(), running) == Switch(old(S()), old(proc[cur].timeLeft > 0))
      ensures G() == old(G())
    {
      if proc[cur].flags == {} {
        return true;
      }
      ghost var s := S();
      PutBackPreempted();
      GrantsKept(old(proc[..]), proc[..]);
      var p := PickProc();
      Switched(old(proc[..]), proc[..], callers, s, ready, old(proc[cur].timeLeft > 0));
      if p < 0 {
        return false;
      }
      cur := p;
      running := true;
    }

    // ----- Message passing -----

    method WillReceiveFrom(target: nat, source: nat) returns (b: bool)
      requires target < proc.Length && |callers| == proc.Length
      ensures b == WillReceive(T(), target, source)
    {
      var x := proc[target];
      b := Receiving in x.flags && Sending !in x.flags && (x.getFrom == Any || x.getFrom == Slot(source));
    }

    method MiniNotify(c: nat, d: nat)
      requires Valid() && c < proc.Length && d < proc.Length
      modifies this`ready, proc, runHead, runTail
      ensures Valid() && T() == NotifySpec(old(T()), c, d)
      ensures S() == (if WillReceive(old(T()), d, c) && !old(T())[d].replyPend then Unset(old(S()), d, Receiving) else old(S()))
      ensures G() == old(G())
    {
      var willing := WillReceiveFrom(d, c);
      ghost var ps := proc[..];
      if willing && !proc[d].replyPend {
        Deliver(d, Notification(c), false);
      } else {
        ghost var x := ps[d].(pending := ps[d].pending + {c});
        proc[d] := proc[d].(pending := proc[d].pending + {c});
        assert proc[..] == ps[d := x];
        GrantKept(ps, d, x);
        MailChanged(ps, callers, d, x, ready, cur, runHead[..], runTail[..]);
      }
    }

    /** A receiver gets its message and stops waiting. */
    method Deliver(d: nat, m: Message, replied: bool)
      requires Valid() && d < proc.Length
      modifies this`ready, proc, runHead, runTail
      ensures Valid() && S() == Unset(old(S()), d, Receiving)
      ensures var u := Delivered(old(T()), d, m);
        T() == u[d := u[d].(replyPend := u[d].replyPend && !replied)]
      ensures G() == old(G())
    {
      ghost var ps, s := proc[..], S();
      ghost var replyPend := ps[d].replyPend && !replied;
      proc[d] := proc[d].(deliverMsg := m, deliver := true);
      if proc[d].replyPend && replied {
        proc[d] := proc[d].(replyPend := false);
      }
      ghost var ps1 := ps[d := ps[d].(deliverMsg := m, deliver := true, replyPend := replyPend)];
      assert proc[..] == ps1;
      GrantKept(ps, d, ps1[d]);
      TurnsStay(ps, ps1, ready, cur, runHead[..], runTail[..]);
      UnsetKeeps(s, d, Receiving);
      RtsUnset(d, Receiving);
      GrantsKept(ps1, proc[..]);
      AfterUnset(ps1, proc[..], s.ready, ready, cur, d, Receiving);
      AfterDelivery(ps, proc[..], callers, d, m, replyPend);
    }

    /** The walk along the blocked-on links; 0 if there is no deadlock, else the number of processes in it. */
    method Deadlock(toSend: bool, c: nat, e: Endpoint) returns (group: nat)
      requires |callers| == proc.Length && c < proc.Length
      requires e != None && (e.Slot? ==> e.nr < proc.Length)
      requires InRange(T()) && Ends(T(), e, c)
      ensures (group > 0) == Deadlocked(T(), toSend, c, e)
      ensures group > 0 ==> group >= 2 && Follow(T(), e, group - 1) == Slot(c)
      ensures Ordered(T()) && e != Slot(c) ==> group <= proc.Length
    {
      hide InRange, Ordered, BlockedOn;
      ghost var t := T();
      ghost var n: nat :| StopsAt(t, e, c, n);
      var x := e;
      group := 1;
      while x != Any
        invariant 1 <= group <= n + 1 && x == Follow(t, e, group - 1) && x != None
        invariant x.Slot? ==> x.nr < |t|
        invariant Walked(t, e, c, group - 1) && (group > 1 ==> x != Slot(c))
        decreases n + 1 - group
      {
        var xp := x.nr;
        WalkOn(t, e, c, group - 1, n);
        group := group + 1;
        x := Blocker(xp);
        if x == None {
          NothingAhead(t, e, c, group - 2);
          return 0;
        }
        if x == Slot(c) {
          CircleFound(t, toSend, c, e, group - 2);
          if group == 2 && (Sending in proc[xp].flags) != toSend {
            return 0;
          }
          return;
        }
      }
      NothingAhead(t, e, c, group - 1);
      group := 0;
    }

    /** On which process is `p` blocked? */
    method Blocker(p: nat) returns (e: Endpoint)
      requires |callers| == proc.Length && p < proc.Length
      ensures e == BlockedOn(T(), p)
    {
      e := if Sending in proc[p].flags then Slot(proc[p].sendTo)
           else if Receiving in proc[p].flags then proc[p].getFrom
           else None;
    }

    /** Put `c` at the end of the caller queue of `d`. */
    method JoinQueue(c: nat, d: nat, ghost q: seq<nat>)
      requires c < proc.Length && d < proc.Length
      requires IsList(proc[d].callerQ, q, CallerLinks(proc[..])) && (q != [] ==> q[|q| - 1] < proc.Length)
      modifies proc
      ensures proc[..] == Chained(old(proc[..]), q, c, d)
    {
      if proc[d].callerQ == NULL {
        proc[d] := proc[d].(callerQ := c);
      } else {
        var x := proc[d].callerQ;
        ghost var k := 0;
        assert LinkAt(q, CallerLinks(proc[..]), 0);
        while proc[x].qLink != NULL
          invariant k < |q| && x == q[k] && x < proc.Length && LinkAt(q, CallerLinks(proc[..]), k)
          decreases |q| - k
        {
          x := proc[x].qLink;
          k := k + 1;
          assert LinkAt(q, CallerLinks(proc[..]), k);
        }
        assert x == q[|q| - 1];
        proc[x] := proc[x].(qLink := c);
      }
    }

    /** Keep the message of `c` and mark it as blocked. */
    method MarkSending(c: nat, body: int)
      requires Sound() && c < proc.Length
      modifies this`ready, proc, runHead, runTail
      ensures Sound() && S() == Set(old(S()), c, Sending)
      ensures View(old(proc[..])[c := old(proc[c]).(sendBody := body)], old(ready), cur) == old(S())
      ensures SameMails(old(proc[..])[c := old(proc[c]).(sendBody := body)], proc[..])
    {
      ghost var ps := proc[..];
      ghost var ps0 := ps[c := ps[c].(sendBody := body)];
      proc[c] := proc[c].(sendBody := body);
      assert proc[..] == ps0;
      TurnsStay(ps, ps0, ready, cur, runHead[..], runTail[..]);
      RtsSet(c, Sending);
    }

    /** The caller cannot be served at once: it blocks, last in the queue of its destination. */
    method BlockOnSend(c: nat, d: nat, body: int)
      requires Valid() && c < proc.Length && d < proc.Length && Sending !in proc[c].flags
      modifies this`ready, this`callers, proc, runHead, runTail
      ensures Valid() && S() == Set(old(S()), c, Sending)
      ensures var u := old(T())[c := old(T())[c].(sendBody := body, sending := true, sendTo := d)];
        T() == u[d := u[d].(callers := u[d].callers + [c])]
      ensures G() == old(G())
    {
      ghost var ps, s := proc[..], S();
      MarkSending(c, body);
      ghost var ps1 := proc[..];
      GrantKept(ps, c, ps[c].(sendBody := body));
      GrantsKept(ps[c := ps[c].(sendBody := body)], ps1);
      GrantKept(ps1, c, ps1[c].(sendTo := d));
      Queued(ps, ps1, s, ready, runHead[..], runTail[..], callers, c, d, body);
      proc[c] := proc[c].(sendTo := d);
      assert proc[..] == ps1[c := ps1[c].(sendTo := d)];
      ChainGrants(proc[..], callers[d], c, d);
      JoinQueue(c, d, callers[d]);
      callers := callers[d := callers[d] + [c]];
    }

    method MiniSend(c: nat, d: nat, body: int, nonBlocking: bool, copied: bool) returns (r: Result)
      requires Valid() && c < proc.Length && d < proc.Length && Sending !in proc[c].flags
      requires InRange(T()) && (SendWalks(T(), c, d, nonBlocking) ==> Ends(T(), Slot(d), c))
      modifies this`ready, this`callers, proc, runHead, runTail
      ensures Valid() && (T(), r) == SendSpec(old(T()), c, d, body, nonBlocking, copied)
      ensures S() == SendSched(old(T()), old(S()), c, d, r)
      ensures G() == old(G())
    {
      if NoEndpoint in proc[d].flags {
        return DeadSrcDst;
      }
      var willing := WillReceiveFrom(d, c);
      if willing {
        if !copied {
          return Fault;
        }
        Deliver(d, Plain(c, body), true);
      } else {
        if nonBlocking {
          return NotReady;
        }
        var group := Deadlock(true, c, Slot(d));
        if group != 0 {
          return Locked;
        }
        if !copied {
          return Fault;
        }
        BlockOnSend(c, d, body);
      }
      r := Ok;
    }

    /** The first acceptable notification, or the table size if there is none. */
    method HasPending(c: nat, src: Endpoint) returns (n: nat)
      requires c < proc.Length && src != None && (src.Slot? ==> src.nr < proc.Length)
      ensures n == FindPending(proc[c].pending, src, 0, proc.Length)
    {
      if src != Any {
        n := if src.nr in proc[c].pending then src.nr else proc.Length;
      } else {
        n := 0;
        while n < proc.Length && n !in proc[c].pending
          invariant n <= proc.Length && forall m :: 0 <= m < n ==> m !in proc[c].pending
        {
          n := n + 1;
        }
      }
    }

    /** The first caller in the queue of `c` that it would receive from, and the one before it. */
    method FindCaller(c: nat, src: Endpoint) returns (x: int, prev: int)
      requires Valid() && c < proc.Length
      ensures var q := callers[c]; var k := First(q, src);
        x == Node(q, k) && prev == (if k == 0 then NULL else q[k - 1])
    {
      ghost var q := callers[c];
      assert LinkedAt(proc[..], callers, c);
      ghost var k := 0;
      x, prev := proc[c].callerQ, NULL;
      while x != NULL
        invariant k <= |q| && x == Node(q, k) && (k == 0 ==> prev == NULL) && (k > 0 ==> prev == q[k - 1])
        invariant forall j :: 0 <= j < k ==> !Accepts(src, q[j])
        decreases |q| - k
      {
        if src == Any || src == Slot(x) {
          return;
        }
        assert LinkAt(q, CallerLinks(proc[..]), k);
        prev, x := x, proc[x].qLink;
        k := k + 1;
      }
    }

    /** Unlink `x`, which comes after `prev`, from the caller queue of `c`. */
    method LeaveQueue(c: nat, x: nat, prev: int, ghost q: seq<nat>, ghost k: nat)
      requires c < proc.Length && x < proc.Length && k < |q| && q[k] == x
      requires (k == 0 ==> prev == NULL) && (k > 0 ==> prev == q[k - 1] < proc.Length)
      modifies proc
      ensures proc[..] == Unchained(old(proc[..]), q, c, k)
    {
      if prev == NULL {
        proc[c] := proc[c].(callerQ := proc[x].qLink);
      } else {
        proc[prev] := proc[prev].(qLink := proc[x].qLink);
      }
      proc[x] := proc[x].(qLink := NULL);
    }

    /** Take the message of the `k`-th caller, `x`, which comes after `prev`; wake it and unlink it. */
    method TakeFrom(c: nat, x: nat, prev: int, ghost k: nat)
      requires Valid() && c < proc.Length && Sending !in proc[c].flags
      requires var q := callers[c];
        k < |q| && x == q[k] && (k == 0 ==> prev == NULL) && (k > 0 ==> prev == q[k - 1])
      modifies this`ready, this`callers, proc, runHead, runTail
      ensures Valid() && x < proc.Length && S() == Unset(old(S()), x, Sending)
      ensures T() == TakeCaller(old(T()), c, k)
      ensures G() == old(G())
    {
      ghost var ps, s, q := proc[..], S(), callers[c];
      OneQueue(ps, callers, c, c, x);
      ghost var ps1 := ps[c := ps[c].(deliverMsg := Plain(x, ps[x].sendBody), deliver := true)];
      proc[c] := proc[c].(deliverMsg := Plain(x, proc[x].sendBody), deliver := true);
      assert proc[..] == ps1;
      TurnsStay(ps, ps1, ready, cur, runHead[..], runTail[..]);
      RtsUnset(x, Sending);
      ghost var ps2 := proc[..];
      Taken(ps, ps2, s, ready, runHead[..], runTail[..], callers, c, k);
      LeaveQueue(c, x, prev, q, k);
      callers := callers[c := Without(q, k)];
    }

    method BlockOnReceive(c: nat, src: Endpoint)
      requires Valid() && c < proc.Length
      modifies this`ready, proc, runHead, runTail
      ensures Valid() && S() == Set(old(S()), c, Receiving)
      ensures T() == old(T())[c := old(T())[c].(getFrom := src, receiving := true)]
      ensures G() == old(G())
    {
      ghost var ps, s := proc[..], S();
      ghost var ps1 := ps[c := ps[c].(getFrom := src)];
      proc[c] := proc[c].(getFrom := src);
      assert proc[..] == ps1;
      GrantKept(ps, c, ps1[c]);
      TurnsStay(ps, ps1, ready, cur, runHead[..], runTail[..]);
      SetKeeps(s, c, Receiving);
      RtsSet(c, Receiving);
      GrantsKept(ps1, proc[..]);
      AfterSet(ps1, proc[..], s.ready, ready, cur, c, Receiving);
      AfterBlocking(ps, proc[..], callers, c, src);
    }

    /** A pending notification, or the message of a caller, if there is one that is acceptable. */
    method TakeAtHand(c: nat, src: Endpoint, ghost nonBlocking: bool) returns (taken: bool)
      requires Valid() && c < proc.Length && src != None && (src.Slot? ==> src.nr < proc.Length)
      requires src.Slot? ==> !T()[src.nr].noEndpoint
      modifies this`ready, this`callers, proc, runHead, runTail
      ensures Valid() == true
      ensures taken ==> (T(), Ok) == ReceiveSpec(old(T()), c, src, nonBlocking)
      ensures taken ==> S() == ReceiveSched(old(T()), old(S()), c, src, Ok)
      ensures !taken ==> T() == old(T()) && S() == old(S()) && ReceiveWalks(T(), c, src, false)
      ensures G() == old(G())
    {
      if Sending !in proc[c].flags {
        if !proc[c].replyPend {
          var n := HasPending(c, src);
          if n < proc.Length {
            TakePending(c, n);
            return true;
          }
        }
        var x, prev := FindCaller(c, src);
        ghost var k := First(callers[c], src);
        if x != NULL {
          TakeFrom(c, x, prev, k);
          Replied(c);
          return true;
        }
      }
      taken := false;
    }

    method MiniReceive(c: nat, src: Endpoint, nonBlocking: bool) returns (r: Result)
      requires Valid() && c < proc.Length && src != None && (src.Slot? ==> src.nr < proc.Length)
      requires InRange(T()) && (ReceiveWalks(T(), c, src, nonBlocking) ==> Ends(T(), src, c))
      modifies this`ready, this`callers, proc, runHead, runTail
      ensures Valid() == true && (T(), r) == ReceiveSpec(old(T()), c, src, nonBlocking)
      ensures S() == ReceiveSched(old(T()), old(S()), c, src, r)
      ensures G() == old(G())
    {
      if src.Slot? && NoEndpoint in proc[src.nr].flags {
        return DeadSrcDst;
      }
      var taken := TakeAtHand(c, src, nonBlocking);
      if taken {
        return Ok;
      }
      if nonBlocking {
        return NotReady;
      }
      var group := Deadlock(false, c, src);
      if group != 0 {
        return Locked;
      }
      BlockOnReceive(c, src);
      r := Ok;
    }

    method TakePending(c: nat, n: nat)
      requires Valid() && c < proc.Length
      modifies proc
      ensures Valid() && S() == old(S()) && T() == TakeNotification(old(T()), c, n)
      ensures G() == old(G())
    {
      ghost var ps := proc[..];
      proc[c] := proc[c].(pending := proc[c].pending - {n});
      proc[c] := proc[c].(deliverMsg := Notification(n), deliver := true);
      ghost var x := ps[c].(pending := ps[c].pending - {n}, deliverMsg := Notification(n), deliver := true);
      assert proc[..] == ps[c := x];
      GrantKept(ps, c, x);
      MailChanged(ps, callers, c, x, ready, cur, runHead[..], runTail[..]);
    }

    /** The caller's request is answered. */
    method Replied(c: nat)
      requires Valid() && c < proc.Length
      modifies proc
      ensures Valid() && S() == old(S()) && T() == SetReplyPend(old(T()), c, false)
      ensures G() == old(G())
    {
      if proc[c].replyPend {
        SetPending(c, false);
      } else {
        assert T()[c].(replyPend := false) == T()[c];
      }
    }

    method SetPending(c: nat, b: bool)
      requires Valid() && c < proc.Length
      modifies proc
      ensures Valid() && S() == old(S()) && T() == SetReplyPend(old(T()), c, b)
      ensures G() == old(G())
    {
      ghost var ps := proc[..];
      proc[c] := proc[c].(replyPend := b);
      assert proc[..] == ps[c := ps[c].(replyPend := b)];
      GrantKept(ps, c, ps[c].(replyPend := b));
      MailChanged(ps, callers, c, ps[c].(replyPend := b), ready, cur, runHead[..], runTail[..]);
    }

    /** The message for `c` is copied to its address space. */
    method DeliverMsg(c: nat)
      requires Valid() && c < proc.Length && proc[c].deliver
      modifies proc
      ensures Valid() && S() == old(S()) && T() == old(T())[c := old(T())[c].(deliver := false)]
      ensures G() == old(G())
    {
      ghost var ps := proc[..];
      proc[c] := proc[c].(deliver := false);
      assert proc[..] == ps[c := ps[c].(deliver := false)];
      GrantKept(ps, c, ps[c].(deliver := false));
      MailChanged(ps, callers, c, ps[c].(deliver := false), ready, cur, runHead[..], runTail[..]);
    }

    /** A synchronous call, with the checks on its arguments and on the caller's privileges; one that returns. */
    method DoSyncIpc(call: Call, c: nat, e: Endpoint, body: int, copied: bool) returns (r: Result)
      requires Valid() && Inv(T()) && c < proc.Length && Idle(T(), c)
      requires Refusal(proc[..], tasks, call, c, e) == Ok && IpcRuns.Callable(T(), call, c, e)
        ==> IpcRuns.Returns(T(), call, c, e)
      modifies this`ready, this`callers, proc, runHead, runTail
      ensures Valid()
      ensures var refusal := Refusal(old(proc[..]), tasks, call, c, e);
        && (refusal != Ok ==> r == refusal && T() == old(T()) && S() == old(S()))
        && (refusal == Ok ==>
              && (T(), r) == CallSpec(old(T()), call, c, e, body, copied)
              && S() == CallSched(old(T()), old(S()), call, c, e, body, copied))
      ensures G() == old(G())
    {
      if e == Any {
        if call != Receive {
          return Invalid;
        }
      } else {
        if !IsOkEndpoint(proc[..], e) {
          return DeadSrcDst;
        }
        if call != Receive && e.nr !in proc[c].sendMask {
          return CallDenied;
        }
      }
      if call !in proc[c].trapMask {
        return TrapDenied;
      }
      if call != SendRec && call != Receive && e.nr < tasks {
        return TrapDenied;
      }
      r := Dispatch(call, c, e, body, copied);
    }

    method Dispatch(call: Call, c: nat, e: Endpoint, body: int, copied: bool) returns (r: Result)
      requires Valid() && Inv(T()) && IpcRuns.Callable(T(), call, c, e) && IpcRuns.Returns(T(), call, c, e)
      modifies this`ready, this`callers, proc, runHead, runTail
      ensures Valid() == true
      ensures (T(), r) == CallSpec(old(T()), call, c, e, body, copied)
      ensures S() == CallSched(old(T()), old(S()), call, c, e, body, copied)
      ensures G() == old(G())
    {
      ghost var t0 := T();
      StaysInRange(t0);
      match call
      case Send => r := MiniSend(c, e.nr, body, false, copied);
      case SendNb => r := MiniSend(c, e.nr, body, true, copied);
      case Notify => MiniNotify(c, e.nr); r := Ok;
      case Receive =>
        SetReplyPendKeeps(T(), c, false);
        SetPending(c, false);
        StaysInRange(T());
        if Ends(t0, e, c) { IpcRuns.SameEnds(t0, T(), e, c); }
        r := MiniReceive(c, e, false);
      case SendRec =>
        SetReplyPendKeeps(T(), c, true);
        SetPending(c, true);
        ghost var t := T();
        StaysInRange(t);
        if Ends(t0, e, c) { IpcRuns.SameEnds(t0, t, e, c); }
        r := MiniSend(c, e.nr, body, false, copied);
        if r == Ok {
          SecondWalkEnds(t, c, e.nr, body, copied);
          r := MiniReceive(c, e, false);
        }
    }

    /** An expired quantum: the process is stopped, and its scheduler is told in its name. A failure is a panic. */
    method NotifyScheduler(p: nat, scheduler: nat, body: int) returns (r: Result)
      requires Valid() && Inv(T()) && p < proc.Length && scheduler < proc.Length && Idle(T(), p)
      requires SendWalks(T(), p, scheduler, false) ==> Ends(T(), Slot(scheduler), p)
      modifies this`ready, this`callers, proc, runHead, runTail
      ensures Valid() && (T(), r) == SendSpec(old(T()), p, scheduler, body, false, true)
      ensures S() == SendSched(old(T()), Set(old(S()), p, NoQuantum), p, scheduler, r)
      ensures G() == old(G())
    {
      ghost var ps, s := proc[..], S();
      SetKeeps(s, p, NoQuantum);
      RtsSet(p, NoQuantum);
      GrantsKept(ps, proc[..]);
      AfterSet(ps, proc[..], s.ready, ready, cur, p, NoQuantum);
      OtherFlag(ps, proc[..], callers, p, NoQuantum, true);
      StaysInRange(T());
      r := MiniSend(p, scheduler, body, false, true);
    }

    /**
     Change the priority and the quantum of `p`; -1 leaves a value as it is. The bound on the
     priority is tighter than the check in the code, which lets NR_SCHED_QUEUES pass.
     */
    method SchedProc(p: nat, priority: int, quantum: int) returns (r: Result)
      requires Valid() && p < proc.Length && priority != NR_SCHED_QUEUES
      modifies this`ready, proc, runHead, runTail
      ensures Valid() && T() == old(T())
      ensures r == if AcceptsPriority(priority) && (quantum >= 1 || quantum == -1) then Ok else Invalid
      ensures S() == if r == Ok then SetPriority(old(S()), p, if priority == -1 then old(proc[p].priority) else priority) else old(S())
      ensures G() == if r == Ok then old(G())[p := Timed(old(G())[p], quantum)] else old(G())
    {
      if (priority < 0 && priority != -1) || priority > NR_SCHED_QUEUES {
        return Invalid;
      }
      if quantum < 1 && quantum != -1 {
        return Invalid;
      }
      if proc[p].flags == {} {
        SetOther(p, NoQuantum);
        GrantsKept(old(proc[..]), proc[..]);
      }
      assert ReadyAt(S(), proc[p].priority);
      SetTurn(p, if priority == -1 then proc[p].priority else priority, quantum);
      ghost var ps := proc[..];
      UnsetOther(p, NoQuantum);
      GrantsKept(ps, proc[..]);
      r := Ok;
    }

    /** A new quantum, in milliseconds, is given afresh; -1 leaves the time as it is. */
    function Timed(g: Grant, quantum: int): Grant
      requires quantum >= -1
    {
      if quantum == -1 then g else g.(quantum := quantum, timeLeft := quantum * cyclesPerMs)
    }

    method SetTurn(p: nat, priority: nat, quantum: int)
      requires Valid() && p < proc.Length && proc[p].flags != {} && priority < NR_SCHED_QUEUES
      requires quantum >= 1 || quantum == -1
      modifies proc
      ensures Valid() && T() == old(T())
      ensures S() == old(S()).(priority := old(S()).priority[p := priority])
      ensures G() == old(G())[p := Timed(old(G())[p], quantum)]
    {
      ghost var ps := proc[..];
      proc[p] := proc[p].(priority := priority);
      if quantum != -1 {
        proc[p] := proc[p].(quantum := quantum, timeLeft := quantum * cyclesPerMs);
      }
      ghost var x := proc[p];
      assert proc[..] == ps[p := x];
      GrantKept(ps, p, x);
      PriorityChanged(ps, callers, p, x, ready, cur, runHead[..], runTail[..]);
    }

    /** Flags that do not concern message passing. */
    method SetOther(p: nat, f: Rts)
      requires Valid() && p < proc.Length && f !in {Sending, Receiving, NoEndpoint}
      modifies this`ready, proc, runHead, runTail
      ensures Valid() && T() == old(T()) && S() == Set(old(S()), p, f)
      ensures SameMails(old(proc[..]), proc[..])
    {
      ghost var ps, s := proc[..], S();
      SetKeeps(s, p, f);
      RtsSet(p, f);
      AfterSet(ps, proc[..], s.ready, ready, cur, p, f);
      OtherFlag(ps, proc[..], callers, p, f, true);
    }

    method UnsetOther(p: nat, f: Rts)
      requires Valid() && p < proc.Length && f !in {Sending, Receiving, NoEndpoint}
      modifies this`ready, proc, runHead, runTail
      ensures Valid() && T() == old(T()) && S() == Unset(old(S()), p, f)
      ensures SameMails(old(proc[..]), proc[..])
    {
      ghost var ps, s := proc[..], S();
      UnsetKeeps(s, p, f);
      RtsUnset(p, f);
      AfterUnset(ps, proc[..], s.ready, ready, cur, p, f);
      OtherFlag(ps, proc[..], callers, p, f, false);
    }

    // ----- The kernel's check of itself -----

    /** The walk along queue `q`; `l` counts the processes met. */
    method QueueOk(q: nat, l: nat, ghost ready: seq<seq<nat>>, ghost lists: seq<seq<nat>>, ghost seen: seq<nat>)
      returns (ok: bool, met: nat, ghost lists': seq<seq<nat>>, ghost seen': seq<nat>)
      requires runHead.Length == runTail.Length == NR_SCHED_QUEUES && found.Length == proc.Length && q < NR_SCHED_QUEUES
      requires NULL <= runTail[q] < proc.Length && l == |seen|
      requires Before(proc[..], lists, seen, found[..], runHead[..], runTail[..], q, ready)
      modifies found
      ensures ok ==> met == |seen'| && Before(proc[..], lists', seen', found[..], runHead[..], runTail[..], q + 1, ready)
      ensures AllRight(proc[..], ready, runHead[..], runTail[..]) ==> ok
    {
      ghost var ps, head, tail := proc[..], runHead[..], runTail[..];
      met, lists', seen' := l, lists, seen;
      if AllRight(ps, ready, head, tail) { NoFault(ps, ready, head, tail, q, 0); }
      if runHead[q] != NULL && runTail[q] == NULL { return false, met, lists', seen'; }
      if runHead[q] == NULL && runTail[q] != NULL { return false, met, lists', seen'; }
      if runTail[q] != NULL && proc[runTail[q]].nextReady != NULL { return false, met, lists', seen'; }
      var x := runHead[q];
      while x != NULL
        invariant Inside(ps, lists', seen', found[..], head, tail, q, ready, x) == true && met == |seen'|
        decreases proc.Length - |seen'|
      {
        if AllRight(ps, ready, head, tail) { NoObjection(ps, lists', seen', found[..], head, tail, q, ready, x); }
        if x < 0 || x >= proc.Length { return false, met, lists', seen'; }
        if proc[x].flags != {} { return false, met, lists', seen'; }
        if proc[x].priority != q { return false, met, lists', seen'; }
        if found[x] { return false, met, lists', seen'; }
        ghost var marks := found[..];
        found[x] := true;
        assert found[..] == marks[x := true];
        if proc[x].nextReady == NULL && runTail[q] != x { return false, met, lists', seen'; }
        Onward(ps, lists', seen', marks, head, tail, q, ready, x);
        if met > proc.Length { return false, met, lists', seen'; }
        met := met + 1;
        lists', seen' := lists'[q := lists'[q] + [x]], seen' + [x];
        x := proc[x].nextReady;
      }
      Leave(ps, lists', seen', found[..], head, tail, q, ready);
      ok := true;
    }

    /** Accepts the run queues exactly when lists exist that make them right, as the kernel's own always do. */
    method RunQueuesOk() returns (ok: bool)
      requires runHead.Length == runTail.Length == NR_SCHED_QUEUES && found.Length == proc.Length
      requires forall q :: 0 <= q < NR_SCHED_QUEUES ==> NULL <= runTail[q] < proc.Length
      modifies found
      ensures ok == Rightful(proc[..], runHead[..], runTail[..])
      ensures old(Valid()) ==> ok
    {
      ghost var ps, head, tail := proc[..], runHead[..], runTail[..];
      if Valid() { SoundIsRight(ps, this.ready, cur, head, tail); }
      ghost var ready: seq<seq<nat>> := [];
      if Rightful(ps, head, tail) { ready :| AllRight(ps, ready, head, tail); }
      for p := 0 to proc.Length
        invariant forall i :: 0 <= i < p ==> !found[i]
      {
        found[p] := false;
      }
      var l := 0;
      ghost var lists: seq<seq<nat>> := seq(NR_SCHED_QUEUES, _ => []);
      ghost var seen: seq<nat> := [];
      for q := 0 to NR_SCHED_QUEUES
        invariant Before(ps, lists, seen, found[..], head, tail, q, ready) && l == |seen|
      {
        ok, l, lists, seen := QueueOk(q, l, ready, lists, seen);
        if !ok { return; }
      }
      ghost var marks := found[..];
      for p := 0 to proc.Length
        invariant found[..] == marks && forall i :: 0 <= i < p && ps[i].flags == {} ==> marks[i]
      {
        if AllRight(ps, ready, head, tail) && ps[p].flags == {} {
          Belongs(ps, lists, seen, marks, head, tail, ready, p);
        }
        if proc[p].flags == {} && !found[p] { return false; }
      }
      AllWalked(ps, lists, seen, marks, head, tail);
      ok := true;
    }
  }

  /** An endpoint that names a live process. */
  predicate IsOkEndpoint(ps: seq<Proc>, e: Endpoint) {
    e.Slot? && e.nr < |ps| && SlotFree !in ps[e.nr].flags
  }

  /** Why a call is turned down before anything happens; `Ok` if it is not. */
  function Refusal(ps: seq<Proc>, tasks: nat, call: Call, c: nat, e: Endpoint): Result
    requires c < |ps|
  {
    if e == Any && call != Receive then Invalid
    else if e != Any && !IsOkEndpoint(ps, e) then DeadSrcDst
    else if e != Any && call != Receive && e.nr !in ps[c].sendMask then CallDenied
    else if call !in ps[c].trapMask then TrapDenied
    else if call != SendRec && call != Receive && e.nr < tasks then TrapDenied
    else Ok
  }

  /** Exactly the calls the caller is granted pass, to a partner that is alive or, for RECEIVE, to anyone. */
  lemma PassesIff(ps: seq<Proc>, tasks: nat, call: Call, c: nat, e: Endpoint)
    requires c < |ps|
    ensures Refusal(ps, tasks, call, c, e) == Ok <==>
      (e == Any || IsOkEndpoint(ps, e)) && IpcRights.May(Grants(ps), tasks, call, c, e)
  {
  }

  /** Which reason is given: a wrong partner first, then one the caller may not send to, then a call it may not make. */
  lemma RefusedFor(ps: seq<Proc>, tasks: nat, call: Call, c: nat, e: Endpoint)
    requires c < |ps|
    ensures var r := Refusal(ps, tasks, call, c, e); var g := Grants(ps)[c];
      && (r == Invalid <==> e == Any && call != Receive)
      && (r == DeadSrcDst <==> e != Any && !IsOkEndpoint(ps, e))
      && (r == CallDenied <==> IsOkEndpoint(ps, e) && call != Receive && e.nr !in g.sendMask)
      && (r == TrapDenied ==> call !in g.trapMask || (e.Slot? && e.nr < tasks && call in {Send, SendNb, Notify}))
      && r in {Ok, Invalid, DeadSrcDst, CallDenied, TrapDenied}
  {
  }

  /** What a call means to the scheduler. */
  ghost function CallSched(t: Table, s: State, call: Call, c: nat, e: Endpoint, body: int, copied: bool): State
    requires c < |t| && (e.Slot? ==> e.nr < |t|) && (e == Any ==> call == Receive) && e != None
    requires |t| == |s.flags| && WellFormed(s)
  {
    match call
    case Send => SendSched(t, s, c, e.nr, SendSpec(t, c, e.nr, body, false, copied).1)
    case SendNb => SendSched(t, s, c, e.nr, SendSpec(t, c, e.nr, body, true, copied).1)
    case Notify => if WillReceive(t, e.nr, c) && !t[e.nr].replyPend then Unset(s, e.nr, Receiving) else s
    case Receive =>
      var t1 := SetReplyPend(t, c, false);
      ReceiveSched(t1, s, c, e, ReceiveSpec(t1, c, e, false).1)
    case SendRec =>
      var t1 := SetReplyPend(t, c, true);
      var (u, r) := SendSpec(t1, c, e.nr, body, false, copied);
      var s1 := SendSched(t1, s, c, e.nr, r);
      if r != Ok then s1 else ReceiveSched(u, s1, c, e, ReceiveSpec(u, c, e, false).1)
  }

  /** A process on no run queue changes priority. */
  lemma PriorityChanged(ps: seq<Proc>, callers: seq<seq<nat>>, p: nat, x: Proc,
                        ready: seq<seq<nat>>, cur: nat, head: seq<int>, tail: seq<int>)
    requires Threaded(ps, ready, head, tail) && Linked(ps, callers) && p < |ps|
    requires ReadyOk(View(ps, ready, cur)) && ps[p].flags != {}
    requires x.priority < NR_SCHED_QUEUES
    requires x == ps[p].(priority := x.priority, quantum := x.quantum, timeLeft := x.timeLeft)
    ensures Threaded(ps[p := x], ready, head, tail) && Linked(ps[p := x], callers)
    ensures var s := View(ps, ready, cur);
      View(ps[p := x], ready, cur) == s.(priority := s.priority[p := x.priority]) && ReadyOk(View(ps[p := x], ready, cur))
    ensures Ports(ps[p := x], callers) == Ports(ps, callers)
  {
    var ps' := ps[p := x];
    CallersStay(ps, ps', callers);
    assert NextReady(ps) == NextReady(ps');
    forall q | 0 <= q < NR_SCHED_QUEUES
      ensures ThreadAt(ps', ready, head, tail, q) && ReadyAt(View(ps', ready, cur), q)
    {
      assert ThreadAt(ps, ready, head, tail, q) && ReadyAt(View(ps, ready, cur), q);
    }
    RecordShows(ps, callers, p, x);
  }

  /** What a receive that ended with `r` means to the scheduler. */
  function ReceiveSched(t: Table, s: State, c: nat, src: Endpoint, r: Result): State
    requires |t| == |s.flags| && c < |t| && WellFormed(s)
  {
    var k := First(t[c].callers, src);
    if r != Ok then s
    else if !t[c].sending && !t[c].replyPend && FindPending(t[c].pending, src, 0, |t|) < |t| then s
    else if !t[c].sending && k < |t[c].callers| && t[c].callers[k] < |t| then Unset(s, t[c].callers[k], Sending)
    else Set(s, c, Receiving)
  }

  /** What a send that ended with `r` means to the scheduler. */
  function SendSched(t: Table, s: State, c: nat, d: nat, r: Result): State
    requires |t| == |s.flags| && c < |t| && d < |t| && WellFormed(s)
  {
    if r != Ok then s
    else if WillReceive(t, d, c) then Unset(s, d, Receiving)
    else Set(s, c, Sending)
  }

  /** From the moment the caller's message is copied and it is woken (`ps2`) to when it has left the queue. */
  lemma Taken(ps: seq<Proc>, ps2: seq<Proc>, s: State, ready2: seq<seq<nat>>, head2: seq<int>, tail2: seq<int>,
              callers: seq<seq<nat>>, c: nat, k: nat)
    requires s == View(ps, s.ready, s.cur) && ReadyOk(s) && Linked(ps, callers)
    requires c < |ps| && Sending !in ps[c].flags && k < |callers[c]| && callers[c][k] < |ps|
    requires var p := callers[c][k];
      var ps1 := ps[c := ps[c].(deliverMsg := Plain(p, ps[p].sendBody), deliver := true)];
      && SameMails(ps1, ps2) && View(ps1, s.ready, s.cur) == s && View(ps2, ready2, s.cur) == Unset(s, p, Sending)
    requires Threaded(ps2, ready2, head2, tail2)
    ensures var q := callers[c];
      && (k > 0 ==> q[k - 1] < |ps|)
      && var ps' := Unchained(ps2, q, c, k);
      && Threaded(ps', ready2, head2, tail2)
      && View(ps', ready2, s.cur) == Unset(s, q[k], Sending) && ReadyOk(Unset(s, q[k], Sending))
      && Linked(ps', callers[c := Without(q, k)])
      && Ports(ps', callers[c := Without(q, k)]) == TakeCaller(Ports(ps, callers), c, k)
      && Grants(ps') == Grants(ps)
  {
    var p := callers[c][k];
    var ps1 := ps[c := ps[c].(deliverMsg := Plain(p, ps[p].sendBody), deliver := true)];
    UnsetKeeps(s, p, Sending);
    AfterUnset(ps1, ps2, s.ready, ready2, s.cur, p, Sending);
    AfterTaking(ps, ps2, callers, c, k);
    TurnsStay(ps2, Unchained(ps2, callers[c], c, k), ready2, s.cur, head2, tail2);
    GrantKept(ps, c, ps1[c]);
    GrantsKept(ps1, ps2);
    UnchainGrants(ps2, callers[c], c, k);
  }

  /** From the moment the sender is marked as blocked (`ps1`) to when it is in the queue. */
  lemma Queued(ps: seq<Proc>, ps1: seq<Proc>, s: State, ready1: seq<seq<nat>>, head1: seq<int>, tail1: seq<int>,
               callers: seq<seq<nat>>, c: nat, d: nat, body: int)
    requires s == View(ps, s.ready, s.cur) && ReadyOk(s) && Linked(ps, callers)
    requires c < |ps| && d < |ps| && Sending !in ps[c].flags
    requires var ps0 := ps[c := ps[c].(sendBody := body)];
      && SameMails(ps0, ps1) && View(ps0, s.ready, s.cur) == s && View(ps1, ready1, s.cur) == Set(s, c, Sending)
    requires Threaded(ps1, ready1, head1, tail1)
    ensures var q := callers[d]; var t := Ports(ps, callers); var ps2 := ps1[c := ps1[c].(sendTo := d)];
      && IsList(ps2[d].callerQ, q, CallerLinks(ps2))
      && (q != [] ==> q[|q| - 1] < |ps|)
      && var ps' := Chained(ps2, q, c, d);
      && Threaded(ps', ready1, head1, tail1)
      && View(ps', ready1, s.cur) == Set(s, c, Sending) && ReadyOk(Set(s, c, Sending))
      && Linked(ps', callers[d := q + [c]])
      && var u := t[c := t[c].(sendBody := body, sending := true, sendTo := d)];
      Ports(ps', callers[d := q + [c]]) == u[d := u[d].(callers := u[d].callers + [c])]
  {
    hide Threaded;
    var ps0 := ps[c := ps[c].(sendBody := body)];
    var ps2 := ps1[c := ps1[c].(sendTo := d)];
    SetKeeps(s, c, Sending);
    AfterSet(ps0, ps1, s.ready, ready1, s.cur, c, Sending);
    AfterQueueing(ps, ps1, callers, c, d, body);
    TurnsStay(ps1, ps2, ready1, s.cur, head1, tail1);
    TurnsStay(ps2, Chained(ps2, callers[d], c, d), ready1, s.cur, head1, tail1);
  }

  /** A change of one record that shows neither in the scheduler's view nor in the caller queues. */
  lemma MailChanged(ps: seq<Proc>, callers: seq<seq<nat>>, c: nat, x: Proc,
                    ready: seq<seq<nat>>, cur: nat, head: seq<int>, tail: seq<int>)
    requires Threaded(ps, ready, head, tail) && Linked(ps, callers) && c < |ps|
    requires SameTurn(x, ps[c]) && SameSend(x, ps[c]) && SameLinks(x, ps[c])
    ensures Threaded(ps[c := x], ready, head, tail) && Linked(ps[c := x], callers)
    ensures View(ps[c := x], ready, cur) == View(ps, ready, cur)
    ensures Ports(ps[c := x], callers) == Ports(ps, callers)[c := PortOf(x, callers[c])]
  {
    TurnsStay(ps, ps[c := x], ready, cur, head, tail);
    CallersStay(ps, ps[c := x], callers);
    RecordShows(ps, callers, c, x);
  }

  /** After `j` steps the walk is at a process, and not back at `c`. */
  ghost predicate Past(t: Table, e: Endpoint, c: nat, j: nat) {
    Follow(t, e, j).Slot? && Follow(t, e, j).nr < |t| && (j > 0 ==> Follow(t, e, j) != Slot(c))
  }

  ghost predicate Walked(t: Table, e: Endpoint, c: nat, k: nat) {
    forall j :: 0 <= j < k ==> Past(t, e, c, j)
  }

  /** One more step; `n` is where the walk must stop. */
  lemma WalkOn(t: Table, e: Endpoint, c: nat, k: nat, n: nat)
    requires InRange(t) && Walked(t, e, c, k) && Follow(t, e, k).Slot? && Follow(t, e, k).nr < |t|
    requires (k > 0 ==> Follow(t, e, k) != Slot(c)) && k <= n && StopsAt(t, e, c, n)
    ensures k < n && Walked(t, e, c, k + 1)
    ensures Follow(t, e, k + 1) == BlockedOn(t, Follow(t, e, k).nr)
    ensures Follow(t, e, k + 1).Slot? ==> Follow(t, e, k + 1).nr < |t|
  {
    assert Past(t, e, c, k);
  }

  /** The next step brings the walk back to `c`. */
  lemma CircleFound(t: Table, toSend: bool, c: nat, e: Endpoint, k: nat)
    requires c < |t| && Walked(t, e, c, k + 1) && Follow(t, e, k + 1) == Slot(c)
    ensures e.Slot? && e.nr < |t|
    ensures Deadlocked(t, toSend, c, e) <==> !(k == 0 && t[e.nr].sending != toSend)
    ensures k == 0 ==> Follow(t, e, 0) == e
    ensures Ordered(t) && e != Slot(c) ==> k + 2 <= |t|
  {
    assert Past(t, e, c, 0) && Follow(t, e, 0) == e;
    assert k > 0 ==> Past(t, e, c, 1);
    assert Follow(t, e, 1) == if e.Slot? && e.nr < |t| then BlockedOn(t, e.nr) else None;
    if Ordered(t) && e != Slot(c) {
      forall j | 0 <= j <= k
        ensures Met(t, e, c, j)
      {
        assert Past(t, e, c, j);
      }
      GroupFits(t, e, c, k);
    }
  }

  /** The next step brings the walk to nothing. */
  lemma NothingAhead(t: Table, e: Endpoint, c: nat, k: nat)
    requires Walked(t, e, c, k) && (k > 0 ==> Follow(t, e, k) != Slot(c)) && Follow(t, e, k + 1) == None
    ensures !WaitsFor(t, e, c)
  {
    forall n: nat | n > 0
      ensures Follow(t, e, n) != Slot(c)
    {
      if n < k {
        assert Past(t, e, c, n);
      } else if k < n {
        NowhereStays(t, e, k + 1, n);
      }
    }
  }

  /** What is left of the views when a process was put back and the best one chosen. */
  lemma Switched(ps: seq<Proc>, ps': seq<Proc>, callers: seq<seq<nat>>, s: State, ready': seq<seq<nat>>, timeLeft: bool)
    requires s == View(ps, s.ready, s.cur) && ReadyOk(s) && s.flags[s.cur] != {} && Linked(ps, callers)
    requires SameMails(ps, ps') && View(ps', ready', s.cur) == PutBack(s, timeLeft)
    ensures Linked(ps', callers) && Ports(ps', callers) == Ports(ps, callers)
    ensures var b := Best(ready', 0);
      && View(ps', ready', if b < 0 then s.cur else b) == Switch(s, timeLeft).0
      && ReadyOk(Switch(s, timeLeft).0)
      && -1 <= b < |ps|
  {
    PutBackFlags(ps, ps', s, ready', timeLeft);
    OtherFlag(ps, ps', callers, s.cur, Preempted, false);
    SwitchKeeps(s, timeLeft);
    PutBackKeeps(s, timeLeft);
    BestIsBest(PutBack(s, timeLeft), 0);
  }

  lemma PutBackFlags(ps: seq<Proc>, ps': seq<Proc>, s: State, ready': seq<seq<nat>>, timeLeft: bool)
    requires s == View(ps, s.ready, s.cur) && WellFormed(s) && s.flags[s.cur] != {}
    requires SameMails(ps, ps') && View(ps', ready', s.cur) == PutBack(s, timeLeft)
    ensures OneFlag(ps, ps', s.cur, Preempted, false)
  {
    var u := View(ps', ready', s.cur);
    if Preempted !in s.flags[s.cur] {
      assert s.flags[s.cur] - {Preempted} == s.flags[s.cur];
    }
    assert u.flags == s.flags[s.cur := s.flags[s.cur] - {Preempted}];
    assert forall i :: 0 <= i < |ps| ==> u.flags[i] == ps'[i].flags && s.flags[i] == ps[i].flags;
  }
}
