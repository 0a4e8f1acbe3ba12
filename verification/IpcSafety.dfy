/** What every call keeps: exact caller queues, no missed rendezvous, no waiting in a circle but one's own. */
module IpcSafety {
  import opened Ipc
  import opened Links

  ghost predicate PortOk(t: Table, p: nat)
    requires p < |t|
  {
    && (t[p].sending ==> t[p].sendTo < |t|)
    && (t[p].receiving ==> t[p].getFrom != None && (t[p].getFrom.Slot? ==> t[p].getFrom.nr < |t|))
    && (t[p].sending && t[p].receiving ==> t[p].getFrom == Slot(t[p].sendTo) && t[p].replyPend)
    && (t[p].receiving ==> !t[p].deliver)
  }

  ghost predicate SendsTo(t: Table, p: nat, d: nat) {
    p < |t| && t[p].sending && t[p].sendTo == d
  }

  /** The caller queue of `d` holds exactly the processes blocked sending to `d`, once each. */
  ghost predicate QueueAt(t: Table, d: nat)
    requires d < |t|
  {
    && Distinct(t[d].callers)
    && forall p: nat :: p in t[d].callers <==> SendsTo(t, p, d)
  }

  /** Nobody is queued for a process that waits for just that message. */
  ghost predicate MeetsAt(t: Table, p: nat)
    requires p < |t|
  {
    t[p].sending && t[p].sendTo < |t| ==> !WillReceive(t, t[p].sendTo, p)
  }

  /** A process that waits, and not for the reply to a SENDREC, has no notification it would accept. */
  ghost predicate NotifiedAt(t: Table, d: nat)
    requires d < |t|
  {
    && (forall n :: n in t[d].pending ==> n < |t|)
    && (t[d].receiving && !t[d].sending && !t[d].replyPend
        ==> forall n :: n in t[d].pending ==> !Accepts(t[d].getFrom, n))
  }

  ghost predicate LinkDown(t: Table, rank: seq<nat>, p: nat, q: nat)
    requires |rank| == |t| && p < |t| && q < |t|
  {
    BlockedOn(t, p) == Slot(q) && p != q ==> rank[p] > rank[q]
  }

  ghost predicate Ranked(t: Table, rank: seq<nat>) {
    |rank| == |t| && forall p: nat, q: nat :: p < |t| && q < |t| ==> LinkDown(t, rank, p, q)
  }

  /** The blocked-on links can be numbered downhill, but for those from a process to itself. */
  ghost predicate Ordered(t: Table) {
    exists rank :: Ranked(t, rank)
  }

  /** A process that is blocked on itself. */
  predicate Loop(t: Table, p: nat)
    requires p < |t|
  {
    BlockedOn(t, p) == Slot(p)
  }

  /** Nobody waits in a circle. */
  ghost predicate Acyclic(t: Table) {
    Ordered(t) && forall p :: 0 <= p < |t| ==> !Loop(t, p)
  }

  ghost predicate Local(t: Table) {
    forall p :: 0 <= p < |t| ==> PortOk(t, p) && QueueAt(t, p) && MeetsAt(t, p) && NotifiedAt(t, p)
  }

  ghost predicate Inv(t: Table) {
    Local(t) && Ordered(t)
  }

  /** Able to make a call: running, and with no message still to be copied out. */
  predicate Idle(t: Table, c: nat)
    requires c < |t|
  {
    !t[c].sending && !t[c].receiving && !t[c].deliver
  }

  // ----- Chains -----

  lemma {:induction false} FollowShift(t: Table, x: nat, n: nat)
    requires x < |t|
    ensures Follow(t, Slot(x), n + 1) == Follow(t, BlockedOn(t, x), n)
  {
    if n == 0 {
      assert Follow(t, Slot(x), 0) == Slot(x);
    } else {
      FollowShift(t, x, n - 1);
    }
  }

  /** Whoever is blocked on one that waits for `p` waits for `p`. */
  lemma LinkExtendsWait(t: Table, x: nat, p: nat)
    requires x < |t|
    ensures WaitsFor(t, BlockedOn(t, x), p) ==> WaitsFor(t, Slot(x), p)
  {
    if WaitsFor(t, BlockedOn(t, x), p) {
      var n: nat :| n > 0 && Follow(t, BlockedOn(t, x), n) == Slot(p);
      FollowShift(t, x, n);
      assert Follow(t, Slot(x), n + 1) == Slot(p);
    }
  }

  /** Along a chain the numbering does not go up. */
  lemma {:induction false} FollowDown(t: Table, rank: seq<nat>, x: nat, n: nat)
    requires Ranked(t, rank) && x < |t|
    ensures var y := Follow(t, Slot(x), n); y.Slot? && y.nr < |t| ==> rank[y.nr] <= rank[x]
  {
    if n > 0 {
      var y, z := Follow(t, Slot(x), n - 1), Follow(t, Slot(x), n);
      FollowDown(t, rank, x, n - 1);
      if z.Slot? && z.nr < |t| {
        assert y.Slot? && y.nr < |t| && BlockedOn(t, y.nr) == z;
        assert LinkDown(t, rank, y.nr, z.nr);
      }
    }
  }

  /** From a process that is not blocked on itself it goes down. */
  lemma FollowStepsDown(t: Table, rank: seq<nat>, x: nat, n: nat)
    requires Ranked(t, rank) && x < |t| && n > 0 && !Loop(t, x)
    ensures var y := Follow(t, Slot(x), n); y.Slot? && y.nr < |t| ==> rank[y.nr] < rank[x]
  {
    FollowShift(t, x, n - 1);
    var z := BlockedOn(t, x);
    if z.Slot? && z.nr < |t| {
      assert LinkDown(t, rank, x, z.nr);
      FollowDown(t, rank, z.nr, n - 1);
    } else if Follow(t, Slot(x), n).Slot? && n > 1 {
      FollowFrom(t, z, 1, n - 2);
      assert Follow(t, z, 0) == z && Follow(t, z, 1) == None;
      NowhereStays(t, z, 1, n - 1);
    }
  }

  /** Nobody waits for itself, through however many others, unless it is blocked on itself. */
  lemma OnlyLoopsWait(t: Table, p: nat)
    requires Ordered(t) && p < |t|
    ensures WaitsFor(t, Slot(p), p) <==> Loop(t, p)
  {
    if Loop(t, p) {
      assert Follow(t, Slot(p), 0) == Slot(p) && Follow(t, Slot(p), 1) == Slot(p);
    } else if WaitsFor(t, Slot(p), p) {
      var rank :| Ranked(t, rank);
      var n: nat :| n > 0 && Follow(t, Slot(p), n) == Slot(p);
      FollowStepsDown(t, rank, p, n);
    }
  }

  /** Who is blocked on one that waits for it waits in a circle, and that can only be its own. */
  lemma NoWayBack(t: Table, p: nat, q: nat)
    requires Ordered(t) && p < |t| && q < |t| && BlockedOn(t, p) == Slot(q) && p != q
    ensures !WaitsFor(t, Slot(q), p)
  {
    LinkExtendsWait(t, p, p);
    OnlyLoopsWait(t, p);
  }

  lemma NeverWaits(t: Table, d: nat, c: nat)
    requires d < |t| && BlockedOn(t, d) == None
    ensures !WaitsFor(t, Slot(d), c)
  {
    if WaitsFor(t, Slot(d), c) {
      var n: nat :| n > 0 && Follow(t, Slot(d), n) == Slot(c);
      assert Follow(t, Slot(d), 0) == Slot(d);
      NowhereStays(t, Slot(d), 1, n);
    }
  }

  /** A new link from `c` closes no circle unless the other end waits for `c`, or is `c`. */
  lemma NewLink(t: Table, u: Table, c: nat, d: nat)
    requires Ordered(t) && |t| == |u| && c < |t| && d < |t|
    requires c != d && !WaitsFor(t, Slot(d), c)
    requires BlockedOn(t, c) == None
    requires forall p :: 0 <= p < |t| && p != c ==> BlockedOn(u, p) == BlockedOn(t, p)
    requires BlockedOn(u, c) == Slot(d)
    ensures Ordered(u)
  {
    var rank :| Ranked(t, rank);
    var lift := seq(|t|, (x: int) requires 0 <= x < |t| => if x == c || WaitsFor(t, Slot(x), c) then rank[x] + rank[d] + 1 else rank[x]);
    forall p: nat, q: nat | p < |t| && q < |t|
      ensures LinkDown(u, lift, p, q)
    {
      if BlockedOn(u, p) == Slot(q) && p != c {
        assert LinkDown(t, rank, p, q);
        if q == c {
          assert Follow(t, Slot(p), 0) == Slot(p) && Follow(t, Slot(p), 1) == Slot(c);
        } else {
          LinkExtendsWait(t, p, c);
        }
      }
    }
    assert Ranked(u, lift);
  }

  /** Dropping links, or keeping them, or turning them to oneself, closes no circle of several. */
  lemma FewerLinks(t: Table, u: Table)
    requires Ordered(t) && |t| == |u|
    requires forall p :: 0 <= p < |t| ==> BlockedOn(u, p) == BlockedOn(t, p) || !BlockedOn(u, p).Slot? || Loop(u, p)
    ensures Ordered(u)
  {
    var rank :| Ranked(t, rank);
    forall p: nat, q: nat | p < |t| && q < |t|
      ensures LinkDown(u, rank, p, q)
    {
      assert LinkDown(t, rank, p, q);
    }
    assert Ranked(u, rank);
  }

  // ----- Every primitive step keeps the local invariants -----

  /** Instances of the local invariants at one process. */
  lemma At(t: Table, p: nat)
    requires Local(t) && p < |t|
    ensures PortOk(t, p) && QueueAt(t, p) && MeetsAt(t, p) && NotifiedAt(t, p)
  {
  }

  lemma DeliveredKeeps(t: Table, d: nat, m: Message, replyPend: bool)
    requires Inv(t) && d < |t| && t[d].receiving && !t[d].sending
    ensures var u := Delivered(t, d, m); Inv(u) && Inv(u[d := u[d].(replyPend := false)])
  {
    var u := Delivered(t, d, m);
    forall v | v == u || v == u[d := u[d].(replyPend := false)]
      ensures Inv(v)
    {
      forall p | 0 <= p < |t|
        ensures PortOk(v, p) && QueueAt(v, p) && MeetsAt(v, p) && NotifiedAt(v, p)
      {
        At(t, p);
        QueueFrame(t, v, p);
      }
      FewerLinks(t, v);
    }
  }

  /** The queue of `d` stays right while no process starts or stops sending to it. */
  lemma QueueFrame(t: Table, u: Table, d: nat)
    requires |t| == |u| && d < |t| && QueueAt(t, d) && u[d].callers == t[d].callers
    requires forall p: nat :: SendsTo(u, p, d) == SendsTo(t, p, d)
    ensures QueueAt(u, d)
  {
  }

  lemma BlockSendKeeps(t: Table, c: nat, d: nat, body: int)
    requires Inv(t) && c < |t| && d < |t| && Idle(t, c)
    requires !WillReceive(t, d, c) && !WaitsFor(t, Slot(d), c)
    ensures var u := t[c := t[c].(sendBody := body, sending := true, sendTo := d)];
      Inv(u[d := u[d].(callers := u[d].callers + [c])])
  {
    var u0 := t[c := t[c].(sendBody := body, sending := true, sendTo := d)];
    var u := u0[d := u0[d].(callers := u0[d].callers + [c])];
    At(t, d);
    assert !SendsTo(t, c, d);
    forall p | 0 <= p < |t|
      ensures PortOk(u, p) && QueueAt(u, p) && MeetsAt(u, p) && NotifiedAt(u, p)
    {
      At(t, p);
      if p == d {
        forall q: nat
          ensures q in u[d].callers <==> SendsTo(u, q, d)
        {
          assert q in t[d].callers <==> SendsTo(t, q, d);
        }
      } else {
        assert !SendsTo(t, c, p);
        QueueFrame(t, u, p);
      }
    }
    assert BlockedOn(u, c) == Slot(d);
    if c == d { FewerLinks(t, u); } else { NewLink(t, u, c, d); }
  }

  lemma TakeCallerKeeps(t: Table, c: nat, k: nat)
    requires Inv(t) && c < |t| && Idle(t, c) && k < |t[c].callers|
    ensures t[c].callers[k] < |t| && t[c].callers[k] != c
    ensures Inv(SetReplyPend(TakeCaller(t, c, k), c, false))
  {
    var q := t[c].callers[k];
    At(t, c);
    assert SendsTo(t, q, c);
    var u := SetReplyPend(TakeCaller(t, c, k), c, false);
    WithoutOne(t[c].callers, k);
    assert u[c].callers == Without(t[c].callers, k);
    At(t, q);
    forall p | 0 <= p < |t|
      ensures PortOk(u, p) && QueueAt(u, p) && MeetsAt(u, p) && NotifiedAt(u, p)
    {
      At(t, p);
      if p == c {
        forall r: nat
          ensures r in u[c].callers <==> SendsTo(u, r, c)
        {
          assert r in t[c].callers <==> SendsTo(t, r, c);
        }
      } else {
        forall r: nat
          ensures SendsTo(u, r, p) == SendsTo(t, r, p)
        {
        }
        QueueFrame(t, u, p);
      }
    }
    FewerLinks(t, u);
  }

  lemma TakeNotificationKeeps(t: Table, c: nat, n: nat)
    requires Inv(t) && c < |t| && Idle(t, c)
    ensures Inv(TakeNotification(t, c, n))
  {
    var u := TakeNotification(t, c, n);
    forall p | 0 <= p < |t|
      ensures PortOk(u, p) && QueueAt(u, p) && MeetsAt(u, p) && NotifiedAt(u, p)
    {
      At(t, p);
      QueueFrame(t, u, p);
    }
    FewerLinks(t, u);
  }

  /** Nothing acceptable is at hand: no caller and, unless a reply is awaited, no notification. */
  ghost predicate NothingFor(t: Table, c: nat, src: Endpoint)
    requires c < |t|
  {
    && (t[c].replyPend || forall n :: n in t[c].pending ==> !Accepts(src, n))
    && forall k :: 0 <= k < |t[c].callers| ==> !Accepts(src, t[c].callers[k])
  }

  /** The receiver may be a SENDREC caller whose message is still queued at the same process. */
  ghost predicate MayReceive(t: Table, c: nat, src: Endpoint)
    requires c < |t|
  {
    && !t[c].receiving && !t[c].deliver
    && (t[c].sending ==> src == Slot(t[c].sendTo) && t[c].replyPend)
  }

  lemma BlockReceiveKeeps(t: Table, c: nat, src: Endpoint)
    requires Inv(t) && c < |t| && src != None && (src.Slot? ==> src.nr < |t|)
    requires MayReceive(t, c, src) && (t[c].sending || NothingFor(t, c, src))
    requires t[c].sending || !WaitsFor(t, src, c)
    ensures Inv(t[c := t[c].(getFrom := src, receiving := true)])
  {
    var u := t[c := t[c].(getFrom := src, receiving := true)];
    At(t, c);
    forall p | 0 <= p < |t|
      ensures PortOk(u, p) && QueueAt(u, p) && MeetsAt(u, p) && NotifiedAt(u, p)
    {
      At(t, p);
      QueueFrame(t, u, p);
      if SendsTo(t, p, c) {
        assert p in t[c].callers;
      }
    }
    if t[c].sending || src == Any || src == Slot(c) {
      FewerLinks(t, u);
    } else {
      NewLink(t, u, c, src.nr);
    }
  }

  lemma NotifyKeeps(t: Table, c: nat, d: nat)
    requires Inv(t) && c < |t| && d < |t|
    ensures Inv(NotifySpec(t, c, d))
  {
    if WillReceive(t, d, c) && !t[d].replyPend {
      DeliveredKeeps(t, d, Notification(c), false);
      assert NotifySpec(t, c, d) == Delivered(t, d, Notification(c));
    } else {
      var u := NotifySpec(t, c, d);
      forall p | 0 <= p < |t|
        ensures PortOk(u, p) && QueueAt(u, p) && MeetsAt(u, p) && NotifiedAt(u, p)
      {
        At(t, p);
        QueueFrame(t, u, p);
      }
      FewerLinks(t, u);
    }
  }

  lemma SetReplyPendKeeps(t: Table, c: nat, b: bool)
    requires Inv(t) && c < |t| && Idle(t, c)
    ensures Inv(SetReplyPend(t, c, b))
  {
    var u := SetReplyPend(t, c, b);
    forall p | 0 <= p < |t|
      ensures PortOk(u, p) && QueueAt(u, p) && MeetsAt(u, p) && NotifiedAt(u, p)
    {
      At(t, p);
      QueueFrame(t, u, p);
    }
    FewerLinks(t, u);
  }

  // ----- The deadlock walk -----

  /** The exemption for two processes is never needed: a sender would have met the receiver. */
  lemma ExemptionUnusedBySend(t: Table, c: nat, d: nat)
    requires Inv(t) && c < |t| && d < |t| && !WillReceive(t, d, c)
    ensures Deadlocked(t, true, c, Slot(d)) == WaitsFor(t, Slot(d), c)
  {
  }

  lemma ExemptionUnusedByReceive(t: Table, c: nat, src: Endpoint)
    requires Inv(t) && c < |t| && src != None && (src.Slot? ==> src.nr < |t|)
    requires src != Slot(c) && (t[c].sending ==> src == Slot(t[c].sendTo))
    requires t[c].sending || NothingFor(t, c, src)
    ensures Deadlocked(t, false, c, src) == WaitsFor(t, src, c)
    ensures t[c].sending ==> !WaitsFor(t, src, c)
  {
    if t[c].sending {
      NoWayBack(t, c, src.nr);
    } else if src.Slot? && BlockedOn(t, src.nr) == Slot(c) && t[src.nr].sending {
      At(t, c);
      assert SendsTo(t, src.nr, c);
    }
  }

  /** Whoever waits for one process waits for one of the table. */
  ghost predicate InRange(t: Table) {
    forall p :: 0 <= p < |t| && BlockedOn(t, p).Slot? ==> BlockedOn(t, p).nr < |t|
  }

  /** The walk from `e` comes to one that waits for nobody in particular, or to `c`, after `n` steps. */
  ghost predicate StopsAt(t: Table, e: Endpoint, c: nat, n: nat) {
    !Follow(t, e, n).Slot? || (n > 0 && Follow(t, e, n) == Slot(c))
  }

  /** The deadlock walk for `c` that begins at `e` comes to an end. */
  ghost predicate Ends(t: Table, e: Endpoint, c: nat) {
    exists n: nat :: StopsAt(t, e, c, n)
  }

  /** Before it comes to `c`, the walk comes to another process that is blocked on itself. */
  ghost predicate RunsIntoLoop(t: Table, e: Endpoint, c: nat) {
    exists n: nat :: LoopAfter(t, e, c, n)
  }

  ghost predicate LoopAfter(t: Table, e: Endpoint, c: nat, n: nat) {
    var x := Follow(t, e, n);
    && x.Slot? && x.nr < |t| && x.nr != c && Loop(t, x.nr)
    && forall m :: 1 <= m <= n ==> Follow(t, e, m) != Slot(c)
  }

  /** While it neither stops nor runs into a loop, the numbering goes down at every step. */
  lemma {:induction false} WalkDescends(t: Table, rank: seq<nat>, e: Endpoint, c: nat, n: nat)
    requires Ranked(t, rank) && InRange(t) && e.Slot? && e.nr < |t|
    requires forall m: nat :: !StopsAt(t, e, c, m) && !LoopAfter(t, e, c, m)
    ensures var x := Follow(t, e, n); x.Slot? && x.nr < |t| && rank[x.nr] + n <= rank[e.nr]
  {
    if n > 0 {
      WalkDescends(t, rank, e, c, n - 1);
      var x, y := Follow(t, e, n - 1), Follow(t, e, n);
      assert !StopsAt(t, e, c, n) && y == BlockedOn(t, x.nr);
      assert LinkDown(t, rank, x.nr, y.nr);
      if x.nr == y.nr {
        forall m | 1 <= m <= n - 1
          ensures Follow(t, e, m) != Slot(c)
        {
          assert !StopsAt(t, e, c, m);
        }
        assert LoopAfter(t, e, c, n - 1);
        assert false;
      }
    } else {
      assert Follow(t, e, 0) == e;
    }
  }

  lemma {:induction false} LoopStays(t: Table, e: Endpoint, q: nat, n: nat, m: nat)
    requires q < |t| && Loop(t, q) && Follow(t, e, n) == Slot(q) && n <= m
    ensures Follow(t, e, m) == Slot(q)
  {
    if n < m { LoopStays(t, e, q, n, m - 1); }
  }

  /** The deadlock walk ends exactly if it does not run into another process that is blocked on itself. */
  lemma WalkEndsIff(t: Table, e: Endpoint, c: nat)
    requires Ordered(t) && InRange(t) && (e.Slot? ==> e.nr < |t|)
    ensures Ends(t, e, c) <==> !RunsIntoLoop(t, e, c)
  {
    if !Ends(t, e, c) && !RunsIntoLoop(t, e, c) {
      var rank :| Ranked(t, rank);
      assert Follow(t, e, 0) == e && !StopsAt(t, e, c, 0);
      WalkDescends(t, rank, e, c, rank[e.nr] + 1);
      assert false;
    }
    if Ends(t, e, c) && RunsIntoLoop(t, e, c) {
      var m: nat :| StopsAt(t, e, c, m);
      var n: nat :| LoopAfter(t, e, c, n);
      var q := Follow(t, e, n).nr;
      if m > n {
        LoopStays(t, e, q, n, m);
      } else if m < n && !Follow(t, e, m).Slot? {
        NowhereStays(t, e, m + 1, n);
      }
    }
  }

  /** Once the walk has come to nothing it stays there. */
  lemma {:induction false} NowhereStays(t: Table, e: Endpoint, k: nat, n: nat)
    requires k <= n && Follow(t, e, k) == None
    ensures Follow(t, e, n) == None
  {
    if k < n {
      NowhereStays(t, e, k, n - 1);
    }
  }

  lemma {:induction false} FollowFrom(t: Table, e: Endpoint, i: nat, n: nat)
    ensures Follow(t, Follow(t, e, i), n) == Follow(t, e, i + n)
  {
    if n > 0 {
      FollowFrom(t, e, i, n - 1);
    }
  }

  /** The processes met on a walk, and the caller, are different processes of the table. */
  lemma GroupFits(t: Table, e: Endpoint, c: nat, k: nat)
    requires Ordered(t) && c < |t| && Follow(t, e, k + 1) == Slot(c)
    requires forall j :: 0 <= j <= k ==> Met(t, e, c, j)
    ensures k + 2 <= |t|
  {
    var rank :| Ranked(t, rank);
    var group := [c] + seq(k + 1, j requires 0 <= j <= k => assert Met(t, e, c, j); Follow(t, e, j).nr);
    assert forall j :: 1 <= j < |group| ==> Met(t, e, c, j - 1) && group[j] == Follow(t, e, j - 1).nr;
    forall i, j | 0 <= i < j < |group|
      ensures group[i] != group[j]
    {
      assert Met(t, e, c, j - 1);
      if i > 0 {
        assert Met(t, e, c, i - 1);
        FollowFrom(t, e, i - 1, j - i);
        if Loop(t, group[i]) { LoopStays(t, e, group[i], i - 1, k + 1); }
        FollowStepsDown(t, rank, group[i], j - i);
      }
    }
    Fits(group, |t|);
  }

  /** The `j`-th process on the walk is not the caller. */
  ghost predicate Met(t: Table, e: Endpoint, c: nat, j: nat) {
    Follow(t, e, j).Slot? && Follow(t, e, j).nr < |t| && Follow(t, e, j) != Slot(c)
  }

  // ----- Every call keeps the invariant -----

  lemma SendKeeps(t: Table, c: nat, d: nat, body: int, nonBlocking: bool, copied: bool)
    requires Inv(t) && c < |t| && d < |t| && Idle(t, c)
    ensures Inv(SendSpec(t, c, d, body, nonBlocking, copied).0)
    ensures SendSpec(t, c, d, body, nonBlocking, copied).1 == Ok
      ==> MayReceive(SendSpec(t, c, d, body, nonBlocking, copied).0, c, Slot(d)) || !t[c].replyPend
  {
    if WillReceive(t, d, c) {
      DeliveredKeeps(t, d, Plain(c, body), false);
    } else {
      ExemptionUnusedBySend(t, c, d);
      if !WaitsFor(t, Slot(d), c) {
        BlockSendKeeps(t, c, d, body);
      }
    }
  }

  lemma NothingFound(t: Table, c: nat, src: Endpoint)
    requires Inv(t) && c < |t|
    requires t[c].replyPend || FindPending(t[c].pending, src, 0, |t|) == |t|
    requires First(t[c].callers, src) == |t[c].callers|
    ensures NothingFor(t, c, src)
  {
    At(t, c);
  }

  lemma ReceiveKeeps(t: Table, c: nat, src: Endpoint, nonBlocking: bool)
    requires Inv(t) && c < |t| && src != None && (src.Slot? ==> src.nr < |t|)
    requires MayReceive(t, c, src)
    ensures Inv(ReceiveSpec(t, c, src, nonBlocking).0)
  {
    var n := FindPending(t[c].pending, src, 0, |t|);
    var k := First(t[c].callers, src);
    if !t[c].sending && !t[c].replyPend && n < |t| {
      TakeNotificationKeeps(t, c, n);
    } else if !t[c].sending && k < |t[c].callers| {
      TakeCallerKeeps(t, c, k);
    } else {
      if !t[c].sending {
        NothingFound(t, c, src);
      }
      if src == Slot(c) {
        if !t[c].sending { NeverWaits(t, c, c); }
        BlockReceiveKeeps(t, c, src);
      } else {
        ExemptionUnusedByReceive(t, c, src);
        if !WaitsFor(t, src, c) {
          BlockReceiveKeeps(t, c, src);
        }
      }
    }
  }

  lemma StaysInRange(t: Table)
    requires Inv(t)
    ensures InRange(t)
  {
    forall p | 0 <= p < |t| && BlockedOn(t, p).Slot?
      ensures BlockedOn(t, p).nr < |t|
    {
      At(t, p);
    }
  }

  /** A send gets as far as the deadlock walk. */
  predicate SendWalks(t: Table, c: nat, d: nat, nonBlocking: bool)
    requires d < |t|
  {
    !t[d].noEndpoint && !WillReceive(t, d, c) && !nonBlocking
  }

  /** So does a receive that finds nothing. */
  predicate ReceiveWalks(t: Table, c: nat, src: Endpoint, nonBlocking: bool)
    requires c < |t| && (src.Slot? ==> src.nr < |t|)
  {
    && !(src.Slot? && t[src.nr].noEndpoint)
    && (t[c].sending || ((t[c].replyPend || FindPending(t[c].pending, src, 0, |t|) == |t|) && First(t[c].callers, src) == |t[c].callers|))
    && !nonBlocking
  }

  /** After the first half of a SENDREC, to itself or not, the second walk comes to an end if the first did. */
  lemma SecondWalkEnds(t: Table, c: nat, d: nat, body: int, copied: bool)
    requires Inv(t) && c < |t| && d < |t| && Idle(t, c)
    requires SendWalks(t, c, d, false) ==> Ends(t, Slot(d), c)
    requires SendSpec(t, c, d, body, false, copied).1 == Ok
    ensures var u := SendSpec(t, c, d, body, false, copied).0; InRange(u) && Ends(u, Slot(d), c)
  {
    var u := SendSpec(t, c, d, body, false, copied).0;
    SendKeeps(t, c, d, body, false, copied);
    StaysInRange(u);
    assert Follow(u, Slot(d), 0) == Slot(d) && Follow(u, Slot(d), 1) == BlockedOn(u, d);
    if c == d || WillReceive(t, d, c) {
      assert StopsAt(u, Slot(d), c, 1);
    } else {
      ExemptionUnusedBySend(t, c, d);
      var n: nat :| StopsAt(t, Slot(d), c, n);
      SameWalkUpTo(t, u, Slot(d), c, n);
      assert StopsAt(u, Slot(d), c, n);
    }
  }

  /** A walk that does not come to `c` does not see whether `c` is blocked. */
  lemma {:induction false} SameWalkUpTo(t: Table, u: Table, e: Endpoint, c: nat, n: nat)
    requires |t| == |u| && c < |t| && e != Slot(c) && !WaitsFor(t, e, c)
    requires forall p :: 0 <= p < |t| && p != c ==> BlockedOn(t, p) == BlockedOn(u, p)
    ensures Follow(t, e, n) == Follow(u, e, n)
  {
    if n > 0 {
      SameWalkUpTo(t, u, e, c, n - 1);
      assert n > 1 ==> Follow(t, e, n - 1) != Slot(c);
    }
  }
}
