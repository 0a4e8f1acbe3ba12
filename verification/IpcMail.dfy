/**
 What comes to a receiver, and what becomes of notifications: each is delivered once, to a receiver that
 asked for it, and the answers of calls say what happened.
 */
module IpcMail {
  import opened Ipc
  import opened IpcRuns
  import opened IpcSafety
  import opened Links

  // ----- Who waits for whom -----

  /** `d` is blocked and waits for a message from `x`, or from anyone. */
  predicate Awaits(t: Table, d: nat, x: nat)
    requires d < |t|
  {
    t[d].receiving && !t[d].sending && (t[d].getFrom == Any || t[d].getFrom == Slot(x))
  }

  /** A process does not stay queued to one that waits for it. */
  lemma NoMissedRendezvous(t: Table, p: nat, d: nat)
    requires Inv(t) && SendsTo(t, p, d) && d < |t|
    ensures !Awaits(t, d, p)
  {
    At(t, p);
  }

  /** Nor does a notification stay pending for a process that waits for it, unless it is a reply it waits for. */
  lemma NoMissedNotification(t: Table, d: nat, n: nat)
    requires Inv(t) && d < |t| && n in t[d].pending
    ensures !(Awaits(t, d, n) && !t[d].replyPend)
  {
    At(t, d);
  }

  // ----- Answers -----

  /** What a send answers; it changes the table just if the answer is `Ok`. */
  lemma SendAnswers(t: Table, c: nat, d: nat, body: int, nonBlocking: bool, copied: bool)
    requires Inv(t) && c < |t| && d < |t| && Idle(t, c)
    ensures var (u, r) := SendSpec(t, c, d, body, nonBlocking, copied);
      var refused := !t[d].noEndpoint && !Awaits(t, d, c);
      && (r == DeadSrcDst <==> t[d].noEndpoint)
      && (r == NotReady <==> refused && nonBlocking)
      && (r == Locked <==> refused && !nonBlocking && WaitsFor(t, Slot(d), c))
      && (r == Fault <==> !t[d].noEndpoint && !copied && r != NotReady && r != Locked)
      && (r != Ok ==> u == t)
  {
    if !Awaits(t, d, c) { ExemptionUnusedBySend(t, c, d); }
  }

  /** An accepted message is delivered to a process that waits for it, whose SENDREC is then over, or queued last. */
  lemma SendDelivers(t: Table, c: nat, d: nat, body: int, nonBlocking: bool, copied: bool)
    requires c < |t| && d < |t| && c != d && SendSpec(t, c, d, body, nonBlocking, copied).1 == Ok
    ensures var u := SendSpec(t, c, d, body, nonBlocking, copied).0;
      && (forall p :: 0 <= p < |t| && p != c && p != d ==> u[p] == t[p])
      && (if Awaits(t, d, c) then
            u[c] == t[c] && u[d] == t[d].(deliverMsg := Plain(c, body), deliver := true, receiving := false, replyPend := false)
          else
            && u[c] == t[c].(sending := true, sendTo := d, sendBody := body)
            && u[d] == t[d].(callers := t[d].callers + [c]))
  {
  }

  /** The lowest of the pending notifications that the receiver asks for. */
  ghost predicate Lowest(t: Table, c: nat, src: Endpoint, n: nat)
    requires c < |t|
  {
    && n in t[c].pending && (src == Any || src == Slot(n))
    && forall m :: m in t[c].pending && (src == Any || src == Slot(m)) ==> n <= m
  }

  /**
   RECEIVE takes the lowest notification that is asked for before any message, and clears just its bit;
   the source is named in what is delivered.
   */
  lemma ReceiveTakesNotification(t: Table, c: nat, src: Endpoint, body: int, copied: bool, n: nat)
    requires Inv(t) && Callable(t, Receive, c, src) && (src.Slot? ==> !t[src.nr].noEndpoint) && Lowest(t, c, src, n)
    ensures var (u, r) := CallSpec(t, Receive, c, src, body, copied);
      && r == Ok
      && u == t[c := t[c].(replyPend := false, pending := t[c].pending - {n}, deliver := true, deliverMsg := Notification(n))]
  {
    At(t, c);
    var t1 := SetReplyPend(t, c, false);
    var m := FindPending(t1[c].pending, src, 0, |t|);
    assert m == n;
  }

  /** With none the bits stay as they are; so they do in SENDREC, which waits for a reply. */
  lemma ReceiveKeepsOthers(t: Table, c: nat, src: Endpoint, nonBlocking: bool)
    requires Inv(t) && c < |t| && (src.Slot? ==> src.nr < |t|) && MayReceive(t, c, src)
    requires t[c].replyPend || forall n :: n in t[c].pending ==> !(src == Any || src == Slot(n))
    ensures forall p :: 0 <= p < |t| ==> ReceiveSpec(t, c, src, nonBlocking).0[p].pending == t[p].pending
    ensures var u := ReceiveSpec(t, c, src, nonBlocking).0; u[c].deliver && !t[c].deliver ==> u[c].deliverMsg.Plain?
  {
    At(t, c);
  }

  /** What a receive that finds nothing answers: it blocks, unless that would close a circle. */
  lemma ReceiveAnswers(t: Table, c: nat, src: Endpoint)
    requires Inv(t) && c < |t| && Idle(t, c) && src != None && (src.Slot? ==> src.nr < |t|)
    requires forall n :: n in t[c].pending ==> !(src == Any || src == Slot(n))
    requires forall p :: p in t[c].callers ==> !(src == Any || src == Slot(p))
    ensures var (u, r) := ReceiveSpec(t, c, src, false);
      && (r == DeadSrcDst <==> src.Slot? && t[src.nr].noEndpoint)
      && (r == Locked <==> r != DeadSrcDst && WaitsFor(t, src, c))
      && (r == Ok ==> u == t[c := t[c].(receiving := true, getFrom := src)])
      && (r != Ok ==> u == t) && (r == Ok || r == Locked || r == DeadSrcDst)
  {
    At(t, c);
    assert forall k :: 0 <= k < |t[c].callers| ==> t[c].callers[k] in t[c].callers;
    if src == Slot(c) { NeverWaits(t, c, c); } else { ExemptionUnusedByReceive(t, c, src); }
  }

  // ----- Only what was asked for -----

  /** `d` asks for a message from `x`: it is blocked receiving, or its call is a RECEIVE or a SENDREC. */
  predicate Asks(t: Table, call: Call, c: nat, e: Endpoint, d: nat, x: nat)
    requires d < |t|
  {
    || Awaits(t, d, x)
    || (d == c && (call == Receive || call == SendRec) && (e == Any || e == Slot(x)))
  }

  /** What a call delivers comes from a process that the receiver asked for, and to one that awaits a reply no notification comes. */
  ghost predicate OnlyAsked(t: Table, u: Table, call: Call, c: nat, e: Endpoint, d: nat)
    requires d < |t| == |u|
  {
    u[d].deliver && !t[d].deliver ==>
      && Asks(t, call, c, e, d, u[d].deliverMsg.source)
      && (u[d].deliverMsg.Notification? ==> (if d == c then call == Receive else !t[d].replyPend))
  }

  lemma SendOnlyAsked(t: Table, call: Call, c: nat, e: Endpoint, body: int, nonBlocking: bool, copied: bool, d: nat)
    requires c < |t| && e.Slot? && e.nr < |t| && d < |t|
    ensures OnlyAsked(t, SendSpec(t, c, e.nr, body, nonBlocking, copied).0, call, c, e, d)
  {
  }

  lemma ReceiveOnlyAsked(t: Table, call: Call, c: nat, e: Endpoint, d: nat)
    requires Inv(t) && c < |t| && e != None && (e.Slot? ==> e.nr < |t|) && MayReceive(t, c, e) && d < |t|
    requires call == Receive || (call == SendRec && t[c].replyPend)
    ensures OnlyAsked(t, ReceiveSpec(t, c, e, false).0, call, c, e, d)
    ensures var u := ReceiveSpec(t, c, e, false).0; d != c ==> u[d].deliver == t[d].deliver && u[d].deliverMsg == t[d].deliverMsg
  {
    At(t, c);
    if First(t[c].callers, e) < |t[c].callers| {
      assert SendsTo(t, t[c].callers[First(t[c].callers, e)], c);
    }
  }

  lemma SendRecOnlyAsked(t: Table, c: nat, e: Endpoint, body: int, copied: bool, d: nat)
    requires Inv(t) && Callable(t, SendRec, c, e) && d < |t|
    ensures OnlyAsked(t, CallSpec(t, SendRec, c, e, body, copied).0, SendRec, c, e, d)
  {
    hide ReceiveSpec;
    var t1 := SetReplyPend(t, c, true);
    SetReplyPendKeeps(t, c, true);
    SendOnlyAsked(t1, SendRec, c, e, body, false, copied, d);
    SendKeeps(t1, c, e.nr, body, false, copied);
    var (u, r) := SendSpec(t1, c, e.nr, body, false, copied);
    if r == Ok { ReceiveOnlyAsked(u, SendRec, c, e, d); }
  }

  lemma {:induction false} CallOnlyAsked(t: Table, call: Call, c: nat, e: Endpoint, body: int, copied: bool, d: nat)
    requires Inv(t) && Callable(t, call, c, e) && d < |t|
    ensures OnlyAsked(t, CallSpec(t, call, c, e, body, copied).0, call, c, e, d)
  {
    hide SendSpec, ReceiveSpec;
    match call
    case Send => SendOnlyAsked(t, call, c, e, body, false, copied, d);
    case SendNb => SendOnlyAsked(t, call, c, e, body, true, copied, d);
    case Notify =>
    case Receive =>
      SetReplyPendKeeps(t, c, false);
      ReceiveOnlyAsked(SetReplyPend(t, c, false), call, c, e, d);
    case SendRec => SendRecOnlyAsked(t, c, e, body, copied, d);
  }

  // ----- Notifications are neither lost nor doubled -----

  /** Notifications from `x` under way to `d`: a pending bit, and one that is not copied out yet. */
  function Notes(t: Table, x: nat, d: nat): nat
    requires d < |t|
  {
    One(x in t[d].pending) + One(t[d].deliver && t[d].deliverMsg == Notification(x))
  }

  /** A NOTIFY counts unless one from the same source is pending already: the two are then one. */
  predicate Counts(t: Table, ev: Event, x: nat, d: nat)
    requires d < |t|
  {
    ev.Sync? && ev.call == Notify && ev.c == x && ev.e == Slot(d) && x !in t[d].pending
  }

  predicate Hands(t: Table, ev: Event, x: nat, d: nat)
    requires d < |t|
  {
    ev == CopyOut(d) && t[d].deliverMsg == Notification(x)
  }

  lemma SendKeepsNotes(t: Table, c: nat, e: nat, body: int, nonBlocking: bool, copied: bool, x: nat, d: nat)
    requires Inv(t) && c < |t| && e < |t| && d < |t|
    ensures Notes(SendSpec(t, c, e, body, nonBlocking, copied).0, x, d) == Notes(t, x, d)
  {
    At(t, e);
  }

  lemma ReceiveKeepsNotes(t: Table, c: nat, src: Endpoint, x: nat, d: nat)
    requires Inv(t) && c < |t| && src != None && (src.Slot? ==> src.nr < |t|) && MayReceive(t, c, src) && d < |t|
    ensures Notes(ReceiveSpec(t, c, src, false).0, x, d) == Notes(t, x, d)
  {
    At(t, c);
    if First(t[c].callers, src) < |t[c].callers| {
      assert SendsTo(t, t[c].callers[First(t[c].callers, src)], c);
    }
  }

  lemma NotifyAddsNote(t: Table, c: nat, e: nat, x: nat, d: nat)
    requires Inv(t) && c < |t| && e < |t| && d < |t|
    ensures Notes(NotifySpec(t, c, e), x, d) == Notes(t, x, d) + One(c == x && e == d && x !in t[d].pending)
  {
    At(t, e);
  }

  lemma {:induction false} CallKeepsNotes(t: Table, call: Call, c: nat, e: Endpoint, body: int, copied: bool, x: nat, d: nat)
    requires Inv(t) && Callable(t, call, c, e) && d < |t|
    ensures Notes(CallSpec(t, call, c, e, body, copied).0, x, d)
      == Notes(t, x, d) + One(call == Notify && c == x && e == Slot(d) && x !in t[d].pending)
  {
    match call
    case Send => SendKeepsNotes(t, c, e.nr, body, false, copied, x, d);
    case SendNb => SendKeepsNotes(t, c, e.nr, body, true, copied, x, d);
    case Notify => NotifyAddsNote(t, c, e.nr, x, d);
    case Receive =>
      SetReplyPendKeeps(t, c, false);
      ReceiveKeepsNotes(SetReplyPend(t, c, false), c, e, x, d);
    case SendRec =>
      var t1 := SetReplyPend(t, c, true);
      SetReplyPendKeeps(t, c, true);
      SendKeepsNotes(t1, c, e.nr, body, false, copied, x, d);
      SendKeeps(t1, c, e.nr, body, false, copied);
      var (u, r) := SendSpec(t1, c, e.nr, body, false, copied);
      if r == Ok { ReceiveKeepsNotes(u, c, e, x, d); }
  }

  lemma EventKeepsNotes(t: Table, ev: Event, x: nat, d: nat)
    requires Inv(t) && Enabled(t, ev) && d < |t|
    ensures |Apply(t, ev)| == |t|
    ensures Notes(Apply(t, ev), x, d) + One(Hands(t, ev, x, d)) == Notes(t, x, d) + One(Counts(t, ev, x, d))
  {
    hide CallSpec, SendSpec;
    match ev
    case Sync(call, c, e, body, copied) => CallKeepsNotes(t, call, c, e, body, copied, x, d);
    case Expire(c, e, body) => SendKeepsNotes(t, c, e, body, false, true, x, d);
    case CopyOut(p) =>
  }

  /** NOTIFYs that count, and notifications copied out, in the course of a run. */
  ghost function Notified(t: Table, evs: seq<Event>, x: nat, d: nat): nat
    requires Legal(t, evs)
    decreases |evs|
  {
    if evs == [] then 0
    else (if d < |t| then One(Counts(t, evs[0], x, d)) else 0) + Notified(Apply(t, evs[0]), evs[1..], x, d)
  }

  ghost function Received(t: Table, evs: seq<Event>, x: nat, d: nat): nat
    requires Legal(t, evs)
    decreases |evs|
  {
    if evs == [] then 0
    else (if d < |t| then One(Hands(t, evs[0], x, d)) else 0) + Received(Apply(t, evs[0]), evs[1..], x, d)
  }

  /** In every run each notification that counts is pending, waits to be copied out, or was copied out, exactly once. */
  lemma {:induction false} NotificationsConserved(t: Table, evs: seq<Event>, x: nat, d: nat)
    requires Inv(t) && Legal(t, evs) && d < |t|
    ensures |Run(t, evs)| == |t|
    ensures Notes(t, x, d) + Notified(t, evs, x, d) == Received(t, evs, x, d) + Notes(Run(t, evs), x, d)
    decreases |evs|
  {
    hide Apply, Notes;
    if evs != [] {
      EventKeeps(t, evs[0]);
      EventKeepsNotes(t, evs[0], x, d);
      NotificationsConserved(Apply(t, evs[0]), evs[1..], x, d);
    }
  }

  /** From rest nobody receives more notifications than were sent. */
  lemma NotificationsFromRest(t: Table, evs: seq<Event>, x: nat, d: nat)
    requires AtRest(t) && Legal(t, evs) && d < |t|
    ensures |Run(t, evs)| == |t|
    ensures Notified(t, evs, x, d) == Received(t, evs, x, d) + Notes(Run(t, evs), x, d)
  {
    AtRestIsSafe(t);
    NotificationsConserved(t, evs, x, d);
  }
}
