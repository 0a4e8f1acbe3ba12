/** Whole runs of system calls: safety, progress of SENDREC, order, and no message lost. */
module IpcRuns {
  import opened Ipc
  import opened IpcSafety
  import opened Links

  ghost predicate Callable(t: Table, call: Call, c: nat, e: Endpoint) {
    && c < |t| && Idle(t, c)
    && (e.Slot? ==> e.nr < |t|) && (e == Any ==> call == Receive) && e != None
  }

  lemma {:induction false} CallKeeps(t: Table, call: Call, c: nat, e: Endpoint, body: int, copied: bool)
    requires Inv(t) && Callable(t, call, c, e)
    ensures Inv(CallSpec(t, call, c, e, body, copied).0)
  {
    match call
    case Send => SendKeeps(t, c, e.nr, body, false, copied);
    case SendNb => SendKeeps(t, c, e.nr, body, true, copied);
    case Notify => NotifyKeeps(t, c, e.nr);
    case Receive =>
      SetReplyPendKeeps(t, c, false);
      ReceiveKeeps(SetReplyPend(t, c, false), c, e, false);
    case SendRec =>
      SetReplyPendKeeps(t, c, true);
      SendKeeps(SetReplyPend(t, c, true), c, e.nr, body, false, copied);
      var (u, r) := SendSpec(SetReplyPend(t, c, true), c, e.nr, body, false, copied);
      if r == Ok {
        ReceiveKeeps(u, c, e, false);
      }
  }

  /** Once its message is sent or queued, a SENDREC always goes on to wait for the reply. */
  lemma SendRecWaits(t: Table, c: nat, d: nat, body: int, copied: bool)
    requires Inv(t) && c < |t| && d < |t| && Idle(t, c)
    requires SendSpec(SetReplyPend(t, c, true), c, d, body, false, copied).1 == Ok
    ensures var (u, r) := CallSpec(t, SendRec, c, Slot(d), body, copied);
      r == Ok && u[c].receiving && u[c].getFrom == Slot(d) && u[c].replyPend
  {
    var t1 := SetReplyPend(t, c, true);
    SetReplyPendKeeps(t, c, true);
    SendKeeps(t1, c, d, body, false, copied);
    var (u, r) := SendSpec(t1, c, d, body, false, copied);
    At(t1, c);
    At(u, c);
    if !u[c].sending {
      assert BlockedOn(u, d) == None;
      NeverWaits(u, d, c);
      assert forall k :: 0 <= k < |u[c].callers| ==> SendsTo(u, u[c].callers[k], c);
      assert First(u[c].callers, Slot(d)) == |u[c].callers|;
    }
    if c != d { ExemptionUnusedByReceive(u, c, Slot(d)); }
  }

  // ----- Calls that name their own caller -----

  /** What a process may do to itself: the deadlock walk does not see a call that names its caller. */
  ghost predicate BlocksOnItself(t: Table, call: Call, c: nat, e: Endpoint, copied: bool)
    requires c < |t|
  {
    && e == Slot(c) && !t[c].noEndpoint
    && (match call
        case Send => copied
        case SendRec => copied
        case Receive => c !in t[c].pending
        case _ => false)
  }

  lemma SendLoops(t: Table, c: nat, d: nat, body: int, nonBlocking: bool, copied: bool, p: nat)
    requires Inv(t) && c < |t| && d < |t| && Idle(t, c) && p < |t|
    ensures Loop(SendSpec(t, c, d, body, nonBlocking, copied).0, p) <==>
      Loop(t, p) || (p == c == d && !nonBlocking && copied && !t[c].noEndpoint)
  {
    if c == d { NeverWaits(t, c, c); }
  }

  lemma ReceiveLoops(t: Table, c: nat, src: Endpoint, p: nat)
    requires Inv(t) && c < |t| && src != None && (src.Slot? ==> src.nr < |t|) && MayReceive(t, c, src) && p < |t|
    ensures Loop(ReceiveSpec(t, c, src, false).0, p) <==>
      Loop(t, p) || (p == c && src == Slot(c) && !t[c].noEndpoint && !t[c].sending && (t[c].replyPend || c !in t[c].pending))
  {
    At(t, c);
    var k := First(t[c].callers, src);
    if !t[c].sending && k < |t[c].callers| {
      assert SendsTo(t, t[c].callers[k], c);
      At(t, t[c].callers[k]);
    }
    if src == Slot(c) && !t[c].sending {
      NeverWaits(t, c, c);
    }
  }

  /** A process comes to be blocked on itself by its own call alone, and stays so. */
  lemma {:induction false} LoopsOnlyBySelf(t: Table, call: Call, c: nat, e: Endpoint, body: int, copied: bool, p: nat)
    requires Inv(t) && Callable(t, call, c, e) && p < |t|
    ensures Loop(CallSpec(t, call, c, e, body, copied).0, p) <==>
      Loop(t, p) || (p == c && BlocksOnItself(t, call, c, e, copied))
  {
    match call
    case Send => SendLoops(t, c, e.nr, body, false, copied, p);
    case SendNb => SendLoops(t, c, e.nr, body, true, copied, p);
    case Notify =>
    case Receive =>
      SetReplyPendKeeps(t, c, false);
      ReceiveLoops(SetReplyPend(t, c, false), c, e, p);
    case SendRec =>
      var t1 := SetReplyPend(t, c, true);
      SetReplyPendKeeps(t, c, true);
      SendLoops(t1, c, e.nr, body, false, copied, p);
      SendKeeps(t1, c, e.nr, body, false, copied);
      var (u, r) := SendSpec(t1, c, e.nr, body, false, copied);
      if r == Ok {
        ReceiveLoops(u, c, e, p);
        if e == Slot(c) { NeverWaits(t1, c, c); }
      }
  }

  /** A call makes a circle exactly when the caller blocks on itself. */
  lemma CircleIffSelf(t: Table, call: Call, c: nat, e: Endpoint, body: int, copied: bool)
    requires Inv(t) && Acyclic(t) && Callable(t, call, c, e)
    ensures Acyclic(CallSpec(t, call, c, e, body, copied).0) <==> !BlocksOnItself(t, call, c, e, copied)
  {
    hide CallSpec, BlocksOnItself;
    var u := CallSpec(t, call, c, e, body, copied).0;
    CallKeeps(t, call, c, e, body, copied);
    forall p: nat | p < |t|
      ensures Loop(u, p) <==> p == c && BlocksOnItself(t, call, c, e, copied)
    {
      LoopsOnlyBySelf(t, call, c, e, body, copied, p);
    }
    assert Loop(u, c) <==> BlocksOnItself(t, call, c, e, copied);
  }

  /**
   What comes of it: from rest, process `p` receives from itself, which makes a circle, and then process `q`
   sends to `p`. The deadlock walk for `q` goes round and round at `p`.
   */
  lemma SelfReceiveHangsSenders(t: Table, p: nat, q: nat, body: int, copied: bool)
    requires AtRest(t) && p < |t| && q < |t| && p != q && !t[p].noEndpoint
    ensures var (u, r) := CallSpec(t, Receive, p, Slot(p), body, copied);
      && r == Ok && Inv(u) && !Acyclic(u) && Callable(u, Send, q, Slot(p))
      && Walks(u, Send, q, Slot(p)) && !Ends(u, Slot(p), q)
  {
    AtRestIsSafe(t);
    NeverWaits(SetReplyPend(t, p, false), p, p);
    CallKeeps(t, Receive, p, Slot(p), body, copied);
    var u := CallSpec(t, Receive, p, Slot(p), body, copied).0;
    LoopsOnlyBySelf(t, Receive, p, Slot(p), body, copied, p);
    StaysInRange(u);
    WalkEndsIff(u, Slot(p), q);
    assert Follow(u, Slot(p), 0) == Slot(p);
    assert LoopAfter(u, Slot(p), q, 0);
  }

  /** A call gets as far as the deadlock walk. */
  ghost predicate Walks(t: Table, call: Call, c: nat, e: Endpoint)
    requires Callable(t, call, c, e)
  {
    match call
    case Receive => ReceiveWalks(SetReplyPend(t, c, false), c, e, false)
    case Notify => false
    case _ => SendWalks(t, c, e.nr, call == SendNb)
  }

  /** The kernel comes back from the call. */
  ghost predicate Returns(t: Table, call: Call, c: nat, e: Endpoint)
    requires Callable(t, call, c, e)
  {
    Walks(t, call, c, e) ==> Ends(t, e, c)
  }

  lemma SameEnds(t: Table, u: Table, e: Endpoint, c: nat)
    requires |t| == |u| && forall p :: 0 <= p < |t| ==> BlockedOn(t, p) == BlockedOn(u, p)
    ensures Ends(t, e, c) ==> Ends(u, e, c)
  {
    if n: nat :| StopsAt(t, e, c, n) {
      SameLinks(t, u, e, n);
      assert StopsAt(u, e, c, n);
    }
  }

  /** It does not exactly if the walk runs into another process that is blocked on itself. */
  lemma ReturnsIff(t: Table, call: Call, c: nat, e: Endpoint)
    requires Inv(t) && Callable(t, call, c, e)
    ensures Returns(t, call, c, e) <==> !(Walks(t, call, c, e) && RunsIntoLoop(t, e, c))
  {
    StaysInRange(t);
    WalkEndsIff(t, e, c);
  }

  // ----- No message is lost or duplicated -----

  /** A message on its way: sender, destination, contents. */
  type Letter = (nat, nat, int)

  /** How often slot `p` holds `m`: as the message it tries to send, as the one to be copied out to it. */
  function Held(t: Table, p: nat, m: Letter): nat
    requires p < |t|
  {
    (if t[p].sending && m == (p, t[p].sendTo, t[p].sendBody) then 1 else 0)
    + (if t[p].deliver && t[p].deliverMsg.Plain? && m == (t[p].deliverMsg.source, p, t[p].deliverMsg.body) then 1 else 0)
  }

  function CopiesUpTo(t: Table, n: nat, m: Letter): nat
    requires n <= |t|
  {
    if n == 0 then 0 else CopiesUpTo(t, n - 1, m) + Held(t, n - 1, m)
  }

  /** How many copies of `m` are on their way. */
  function InFlight(t: Table, m: Letter): nat {
    CopiesUpTo(t, |t|, m)
  }

  lemma {:induction false} OneChanges(t: Table, u: Table, p: nat, n: nat, m: Letter)
    requires |t| == |u| && p < |t| && n <= |t|
    requires forall q :: 0 <= q < |t| && q != p ==> t[q] == u[q]
    ensures CopiesUpTo(u, n, m) - (if p < n then Held(u, p, m) else 0)
      == CopiesUpTo(t, n, m) - (if p < n then Held(t, p, m) else 0)
  {
    if n > 0 {
      OneChanges(t, u, p, n - 1, m);
    }
  }

  lemma Replace(t: Table, p: nat, port: Port, m: Letter)
    requires p < |t|
    ensures InFlight(t[p := port], m) - Held(t[p := port], p, m) == InFlight(t, m) - Held(t, p, m)
  {
    OneChanges(t, t[p := port], p, |t|, m);
  }

  /** Whether a call hands over a message that is accepted. */
  ghost predicate Posts(t: Table, call: Call, c: nat, e: Endpoint, body: int, copied: bool)
    requires Callable(t, call, c, e)
  {
    && (call == Send || call == SendNb || call == SendRec)
    && SendSpec(SetReplyPend(t, c, call == SendRec), c, e.nr, body, call == SendNb, copied).1 == Ok
  }

  function One(b: bool): nat {
    if b then 1 else 0
  }

  lemma ReplyPendHoldsNothing(t: Table, c: nat, b: bool, m: Letter)
    requires c < |t|
    ensures InFlight(SetReplyPend(t, c, b), m) == InFlight(t, m)
  {
    Replace(t, c, t[c].(replyPend := b), m);
  }

  lemma SendConserves(t: Table, c: nat, d: nat, body: int, nonBlocking: bool, copied: bool, m: Letter)
    requires Inv(t) && c < |t| && d < |t| && Idle(t, c)
    ensures var (u, r) := SendSpec(t, c, d, body, nonBlocking, copied);
      InFlight(u, m) == InFlight(t, m) + One(r == Ok && m == (c, d, body))
  {
    At(t, d);
    if WillReceive(t, d, c) {
      var u := Delivered(t, d, Plain(c, body));
      Replace(t, d, u[d], m);
      ReplyPendHoldsNothing(u, d, false, m);
    } else {
      var u := t[c := t[c].(sendBody := body, sending := true, sendTo := d)];
      Replace(t, c, u[c], m);
      Replace(u, d, u[d].(callers := u[d].callers + [c]), m);
    }
  }

  lemma TakeCallerConserves(t: Table, c: nat, k: nat, m: Letter)
    requires Inv(t) && c < |t| && Idle(t, c) && k < |t[c].callers| && t[c].callers[k] < |t|
    ensures InFlight(TakeCaller(t, c, k), m) == InFlight(t, m)
  {
    var q := t[c].callers[k];
    At(t, c);
    assert SendsTo(t, q, c);
    var u := t[c := t[c].(deliverMsg := Plain(q, t[q].sendBody), deliver := true, callers := Without(t[c].callers, k))];
    Replace(t, c, u[c], m);
    Replace(u, q, u[q].(sending := false), m);
  }

  lemma ReceiveConserves(t: Table, c: nat, src: Endpoint, nonBlocking: bool, m: Letter)
    requires Inv(t) && c < |t| && src != None && (src.Slot? ==> src.nr < |t|)
    requires MayReceive(t, c, src)
    ensures InFlight(ReceiveSpec(t, c, src, nonBlocking).0, m) == InFlight(t, m)
  {
    var n := FindPending(t[c].pending, src, 0, |t|);
    var k := First(t[c].callers, src);
    if !t[c].sending && !t[c].replyPend && n < |t| {
      Replace(t, c, TakeNotification(t, c, n)[c], m);
    } else if !t[c].sending && k < |t[c].callers| {
      At(t, c);
      assert SendsTo(t, t[c].callers[k], c);
      TakeCallerConserves(t, c, k, m);
      ReplyPendHoldsNothing(TakeCaller(t, c, k), c, false, m);
    } else {
      Replace(t, c, t[c].(getFrom := src, receiving := true), m);
    }
  }

  lemma NotifyConserves(t: Table, c: nat, d: nat, m: Letter)
    requires Inv(t) && c < |t| && d < |t|
    ensures InFlight(NotifySpec(t, c, d), m) == InFlight(t, m)
  {
    At(t, d);
    Replace(t, d, NotifySpec(t, c, d)[d], m);
  }

  lemma SendRecConserves(t: Table, c: nat, d: nat, body: int, copied: bool, m: Letter)
    requires Inv(t) && c < |t| && d < |t| && Idle(t, c)
    ensures InFlight(CallSpec(t, SendRec, c, Slot(d), body, copied).0, m)
      == InFlight(t, m) + One(Posts(t, SendRec, c, Slot(d), body, copied) && m == (c, d, body))
  {
    var t1 := SetReplyPend(t, c, true);
    SetReplyPendKeeps(t, c, true);
    ReplyPendHoldsNothing(t, c, true, m);
    SendConserves(t1, c, d, body, false, copied, m);
    SendKeeps(t1, c, d, body, false, copied);
    var (u, r) := SendSpec(t1, c, d, body, false, copied);
    if r == Ok {
      ReceiveConserves(u, c, Slot(d), false, m);
    }
  }

  /** A call adds the message it hands over to those on their way, and takes none away. */
  lemma {:induction false} CallConserves(t: Table, call: Call, c: nat, e: Endpoint, body: int, copied: bool, m: Letter)
    requires Inv(t) && Callable(t, call, c, e)
    ensures InFlight(CallSpec(t, call, c, e, body, copied).0, m)
      == InFlight(t, m) + One(Posts(t, call, c, e, body, copied) && e.Slot? && m == (c, e.nr, body))
  {
    match call
    case Send => SendPosts(t, c, e.nr, body, false, copied, m);
    case SendNb => SendPosts(t, c, e.nr, body, true, copied, m);
    case Notify => NotifyConserves(t, c, e.nr, m);
    case Receive =>
      SetReplyPendKeeps(t, c, false);
      ReplyPendHoldsNothing(t, c, false, m);
      ReceiveConserves(SetReplyPend(t, c, false), c, e, false, m);
    case SendRec => SendRecConserves(t, c, e.nr, body, copied, m);
  }

  /** A plain send does not look at the reply flag of the caller. */
  lemma SendPosts(t: Table, c: nat, d: nat, body: int, nonBlocking: bool, copied: bool, m: Letter)
    requires Inv(t) && c < |t| && d < |t| && Idle(t, c)
    ensures var call := if nonBlocking then SendNb else Send;
      InFlight(SendSpec(t, c, d, body, nonBlocking, copied).0, m)
        == InFlight(t, m) + One(Posts(t, call, c, Slot(d), body, copied) && m == (c, d, body))
  {
    SendConserves(t, c, d, body, nonBlocking, copied, m);
    var t1 := SetReplyPend(t, c, false);
    SameWalk(t, t1, Slot(d), c);
  }

  /** The deadlock walk looks only at what processes are blocked on. */
  lemma SameWalk(t: Table, u: Table, e: Endpoint, c: nat)
    requires |t| == |u| && c < |t|
    requires forall p :: 0 <= p < |t| ==> BlockedOn(t, p) == BlockedOn(u, p) && t[p].sending == u[p].sending
    ensures Deadlocked(t, true, c, e) == Deadlocked(u, true, c, e)
  {
    forall n: nat
      ensures Follow(t, e, n) == Follow(u, e, n)
    {
      SameLinks(t, u, e, n);
    }
  }

  lemma {:induction false} SameLinks(t: Table, u: Table, e: Endpoint, n: nat)
    requires |t| == |u| && forall p :: 0 <= p < |t| ==> BlockedOn(t, p) == BlockedOn(u, p)
    ensures Follow(t, e, n) == Follow(u, e, n)
  {
    if n > 0 {
      SameLinks(t, u, e, n - 1);
    }
  }

  // ----- Order -----

  /** RECEIVE from anyone serves the caller that has waited longest. */
  lemma ReceiveAnyTakesOldest(t: Table, c: nat, body: int, copied: bool)
    requires Inv(t) && c < |t| && Idle(t, c) && t[c].pending == {} && t[c].callers != []
    ensures var (u, r) := CallSpec(t, Receive, c, Any, body, copied);
      var q := t[c].callers[0];
      && r == Ok && q < |t| && u[c].deliver && u[c].deliverMsg == Plain(q, t[q].sendBody)
      && u[c].callers == t[c].callers[1..] && !u[q].sending
  {
    At(t, c);
    var q := t[c].callers[0];
    assert SendsTo(t, q, c);
  }

  /** A queue changes by one caller leaving, or one joining at the end. */
  ghost predicate QueueStep(before: seq<nat>, after: seq<nat>) {
    || after == before
    || (exists p :: after == before + [p])
    || (exists k: nat :: k < |before| && after == Without(before, k))
  }

  lemma SendQueues(t: Table, c: nat, d: nat, body: int, nonBlocking: bool, copied: bool, x: nat)
    requires c < |t| && d < |t| && x < |t|
    ensures QueueStep(t[x].callers, SendSpec(t, c, d, body, nonBlocking, copied).0[x].callers)
    ensures x == c && c != d ==> SendSpec(t, c, d, body, nonBlocking, copied).0[x].callers == t[x].callers
    ensures SendSpec(t, c, d, body, nonBlocking, copied).0[c].sending
      ==> t[c].sending || SendSpec(t, c, d, body, nonBlocking, copied).0[x].callers == if x == d then t[d].callers + [c] else t[x].callers
  {
  }

  lemma ReceiveQueues(t: Table, c: nat, src: Endpoint, nonBlocking: bool, x: nat)
    requires c < |t| && x < |t| && (src.Slot? ==> src.nr < |t|)
    ensures x == c ==> QueueStep(t[x].callers, ReceiveSpec(t, c, src, nonBlocking).0[x].callers)
    ensures x != c || t[c].sending ==> ReceiveSpec(t, c, src, nonBlocking).0[x].callers == t[x].callers
  {
  }

  /** In every call each caller queue keeps its order. */
  lemma {:induction false} QueuesKeepOrder(t: Table, call: Call, c: nat, e: Endpoint, body: int, copied: bool, x: nat)
    requires Inv(t) && Callable(t, call, c, e) && x < |t|
    ensures QueueStep(t[x].callers, CallSpec(t, call, c, e, body, copied).0[x].callers)
  {
    match call
    case Send => SendQueues(t, c, e.nr, body, false, copied, x);
    case SendNb => SendQueues(t, c, e.nr, body, true, copied, x);
    case Notify =>
    case Receive => ReceiveQueues(SetReplyPend(t, c, false), c, e, false, x);
    case SendRec =>
      var t1 := SetReplyPend(t, c, true);
      SendQueues(t1, c, e.nr, body, false, copied, x);
      var (u, r) := SendSpec(t1, c, e.nr, body, false, copied);
      if r == Ok {
        ReceiveQueues(u, c, e, false, x);
      }
  }

  // ----- Runs -----

  /** A system call, the kernel's message to a scheduler about an expired quantum, or copying out a message. */
  datatype Event =
    | Sync(call: Call, c: nat, e: Endpoint, body: int, copied: bool)
    | Expire(c: nat, scheduler: nat, body: int)
    | CopyOut(p: nat)

  ghost predicate Enabled(t: Table, ev: Event) {
    match ev
    case Sync(call, c, e, _, _) => Callable(t, call, c, e) && Returns(t, call, c, e)
    case Expire(c, d, _) => c < |t| && d < |t| && Idle(t, c) && (SendWalks(t, c, d, false) ==> Ends(t, Slot(d), c))
    case CopyOut(p) => p < |t| && t[p].deliver
  }

  ghost function Apply(t: Table, ev: Event): Table
    requires Enabled(t, ev)
  {
    match ev
    case Sync(call, c, e, body, copied) => CallSpec(t, call, c, e, body, copied).0
    case Expire(c, d, body) => SendSpec(t, c, d, body, false, true).0
    case CopyOut(p) => t[p := t[p].(deliver := false)]
  }

  /** Nobody waits and nothing is under way. */
  ghost predicate AtRest(t: Table) {
    forall p :: 0 <= p < |t| ==>
      !t[p].sending && !t[p].receiving && !t[p].deliver && t[p].callers == [] && t[p].pending == {}
  }

  /** Every event is enabled when it happens. */
  ghost predicate Legal(t: Table, evs: seq<Event>)
    decreases |evs|
  {
    evs != [] ==> Enabled(t, evs[0]) && Legal(Apply(t, evs[0]), evs[1..])
  }

  ghost function Run(t: Table, evs: seq<Event>): Table
    requires Legal(t, evs)
    decreases |evs|
  {
    if evs == [] then t else Run(Apply(t, evs[0]), evs[1..])
  }

  lemma EventKeeps(t: Table, ev: Event)
    requires Inv(t) && Enabled(t, ev)
    ensures Inv(Apply(t, ev)) && |Apply(t, ev)| == |t|
  {
    match ev
    case Sync(call, c, e, body, copied) => CallKeeps(t, call, c, e, body, copied);
    case Expire(c, d, body) => SendKeeps(t, c, d, body, false, true);
    case CopyOut(p) => CopyOutKeeps(t, p);
  }

  lemma CopyOutKeeps(t: Table, c: nat)
    requires Inv(t) && c < |t|
    ensures Inv(t[c := t[c].(deliver := false)])
  {
    var u := t[c := t[c].(deliver := false)];
    forall p | 0 <= p < |t|
      ensures PortOk(u, p) && QueueAt(u, p) && MeetsAt(u, p) && NotifiedAt(u, p)
    {
      At(t, p);
      QueueFrame(t, u, p);
    }
    FewerLinks(t, u);
  }

  lemma AtRestIsSafe(t: Table)
    requires AtRest(t)
    ensures Inv(t)
  {
    forall p | 0 <= p < |t|
      ensures PortOk(t, p) && QueueAt(t, p) && MeetsAt(t, p) && NotifiedAt(t, p)
    {
    }
    assert Ranked(t, seq(|t|, (x: int) => 0));
  }

  /** In every run, calls that name their own caller included, all invariants hold at the end. */
  lemma {:induction false} RunIsSafe(t: Table, evs: seq<Event>)
    requires Inv(t) && Legal(t, evs)
    ensures Inv(Run(t, evs))
    decreases |evs|
  {
    if evs != [] {
      EventKeeps(t, evs[0]);
      RunIsSafe(Apply(t, evs[0]), evs[1..]);
    }
  }

  /** Copies of `m` handed over, and copied out, in the course of a run. */
  ghost function Sent(t: Table, evs: seq<Event>, m: Letter): nat
    requires Legal(t, evs)
    decreases |evs|
  {
    if evs == [] then 0 else
      (match evs[0]
       case Sync(call, c, e, body, copied) => One(Posts(t, call, c, e, body, copied) && e.Slot? && m == (c, e.nr, body))
       case Expire(c, d, body) => One(SendSpec(t, c, d, body, false, true).1 == Ok && m == (c, d, body))
       case CopyOut(_) => 0)
      + Sent(Apply(t, evs[0]), evs[1..], m)
  }

  ghost function CopiedOut(t: Table, evs: seq<Event>, m: Letter): nat
    requires Legal(t, evs)
    decreases |evs|
  {
    if evs == [] then 0 else
      (match evs[0]
       case CopyOut(p) => One(t[p].deliverMsg.Plain? && m == (t[p].deliverMsg.source, p, t[p].deliverMsg.body))
       case _ => 0)
      + CopiedOut(Apply(t, evs[0]), evs[1..], m)
  }

  /** Every message accepted is queued, waits to be copied out, or was copied out, exactly once. */
  lemma {:induction false} RunConserves(t: Table, evs: seq<Event>, m: Letter)
    requires Inv(t) && Legal(t, evs)
    ensures InFlight(t, m) + Sent(t, evs, m) == CopiedOut(t, evs, m) + InFlight(Run(t, evs), m)
    decreases |evs|
  {
    if evs != [] {
      var u := Apply(t, evs[0]);
      EventKeeps(t, evs[0]);
      RunConserves(u, evs[1..], m);
      match evs[0]
      case Sync(call, c, e, body, copied) => CallConserves(t, call, c, e, body, copied, m);
      case Expire(c, d, body) => SendConserves(t, c, d, body, false, true, m);
      case CopyOut(p) => Replace(t, p, t[p].(deliver := false), m);
    }
  }

  lemma {:induction false} AtRestHoldsNothing(t: Table, n: nat, m: Letter)
    requires AtRest(t) && n <= |t|
    ensures CopiesUpTo(t, n, m) == 0
  {
    if n > 0 {
      AtRestHoldsNothing(t, n - 1, m);
    }
  }

  /** No call names its own caller, and no process is its own scheduler. */
  predicate NamesAnother(ev: Event) {
    match ev
    case Sync(_, c, e, _, _) => e != Slot(c)
    case Expire(c, d, _) => c != d
    case CopyOut(_) => true
  }

  lemma NoCircleAfter(t: Table, ev: Event)
    requires Inv(t) && Acyclic(t) && Enabled(t, ev) && NamesAnother(ev)
    ensures Inv(Apply(t, ev)) && Acyclic(Apply(t, ev))
  {
    hide CallSpec, SendSpec, Local, Ordered;
    var u := Apply(t, ev);
    EventKeeps(t, ev);
    forall p: nat | p < |t|
      ensures !Loop(u, p)
    {
      assert !Loop(t, p);
      match ev
      case Sync(call, c, e, body, copied) => LoopsOnlyBySelf(t, call, c, e, body, copied, p);
      case Expire(c, d, body) => SendLoops(t, c, d, body, false, true, p);
      case CopyOut(q) =>
    }
  }

  /** In a run in which no call names its own caller nobody comes to wait in a circle, and every call returns. */
  lemma {:induction false} NoSelfNoCircle(t: Table, evs: seq<Event>)
    requires Inv(t) && Acyclic(t) && Legal(t, evs) && forall i :: 0 <= i < |evs| ==> NamesAnother(evs[i])
    ensures Acyclic(Run(t, evs))
    ensures forall call, c, e :: Callable(Run(t, evs), call, c, e) ==> Returns(Run(t, evs), call, c, e)
    decreases |evs|
  {
    hide CallSpec, Walks;
    if evs == [] {
      forall call, c, e | Callable(t, call, c, e)
        ensures Returns(t, call, c, e)
      {
        ReturnsIff(t, call, c, e);
      }
    } else {
      assert NamesAnother(evs[0]);
      NoCircleAfter(t, evs[0]);
      NoSelfNoCircle(Apply(t, evs[0]), evs[1..]);
    }
  }

  /**
   From rest: what was sent is what was copied out and what is still on its way; and only a process
   that is blocked on itself waits in a circle.
   */
  lemma RunFromRest(t: Table, evs: seq<Event>, m: Letter, p: nat)
    requires AtRest(t) && Legal(t, evs)
    ensures Sent(t, evs, m) == CopiedOut(t, evs, m) + InFlight(Run(t, evs), m)
    ensures p < |Run(t, evs)| ==> (WaitsFor(Run(t, evs), Slot(p), p) <==> Loop(Run(t, evs), p))
    ensures (forall i :: 0 <= i < |evs| ==> NamesAnother(evs[i])) ==> Acyclic(Run(t, evs))
  {
    AtRestIsSafe(t);
    AtRestHoldsNothing(t, |t|, m);
    RunConserves(t, evs, m);
    RunIsSafe(t, evs);
    if p < |Run(t, evs)| { OnlyLoopsWait(Run(t, evs), p); }
    if forall i :: 0 <= i < |evs| ==> NamesAnother(evs[i]) { NoSelfNoCircle(t, evs); }
  }
}
