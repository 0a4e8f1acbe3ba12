/**
 Synchronous message passing, stated over values: what each call does to the IPC part of the
 process table. The kernel's linked caller queues appear here as sequences.
 */
module Ipc {
  import opened Links

  datatype Endpoint = Any | None | Slot(nr: nat)

  datatype Message = Plain(source: nat, body: int) | Notification(source: nat)

  /** The IPC part of a process slot. */
  datatype Port = Port(
    noEndpoint: bool,
    sending: bool, receiving: bool, replyPend: bool, deliver: bool,
    sendTo: nat, getFrom: Endpoint,
    sendBody: int, deliverMsg: Message,
    callers: seq<nat>, pending: set<nat>)

  datatype Call = Send | SendRec | Receive | Notify | SendNb

  datatype Result = Ok | DeadSrcDst | Fault | NotReady | Locked | Invalid | CallDenied | TrapDenied

  type Table = seq<Port>

  /** Whether the target is blocked waiting for a message from `source`. */
  predicate WillReceive(t: Table, target: nat, source: nat)
    requires target < |t|
  {
    && t[target].receiving && !t[target].sending
    && (t[target].getFrom == Any || t[target].getFrom == Slot(source))
  }

  /** On which process is `p` blocked? Sending is looked at first. */
  function BlockedOn(t: Table, p: nat): Endpoint
    requires p < |t|
  {
    if t[p].sending then Slot(t[p].sendTo)
    else if t[p].receiving then t[p].getFrom
    else None
  }

  /** Where `n` steps along the blocked-on links lead from `e`. */
  function Follow(t: Table, e: Endpoint, n: nat): Endpoint {
    if n == 0 then e
    else
      var x := Follow(t, e, n - 1);
      if x.Slot? && x.nr < |t| then BlockedOn(t, x.nr) else None
  }

  /** The process at `e` waits, directly or through others, for `p`. */
  ghost predicate WaitsFor(t: Table, e: Endpoint, p: nat) {
    exists n: nat :: n > 0 && Follow(t, e, n) == Slot(p)
  }

  function First(q: seq<nat>, src: Endpoint): (k: nat)
    ensures k <= |q| && (k < |q| ==> Accepts(src, q[k])) && forall j :: 0 <= j < k ==> !Accepts(src, q[j])
  {
    if q == [] then 0
    else if Accepts(src, q[0]) then 0
    else
      var k := First(q[1..], src);
      assert forall j :: 1 <= j < k + 1 ==> q[j] == q[1..][j - 1];
      k + 1
  }

  predicate Accepts(src: Endpoint, p: nat) {
    src == Any || src == Slot(p)
  }

  /** The lowest pending notification from `n` on that the receiver accepts; `limit` if there is none. */
  function FindPending(pending: set<nat>, src: Endpoint, n: nat, limit: nat): (r: nat)
    requires n <= limit
    ensures n <= r <= limit && (r < limit ==> r in pending && Accepts(src, r))
    ensures forall m :: n <= m < r && m in pending ==> !Accepts(src, m)
    decreases limit - n
  {
    if n == limit || (n in pending && Accepts(src, n)) then n else FindPending(pending, src, n + 1, limit)
  }

  /**
   Would blocking `c` on `e` close a cycle? Two processes that send to and receive from each
   other are let off.
   */
  ghost predicate Deadlocked(t: Table, toSend: bool, c: nat, e: Endpoint) {
    && WaitsFor(t, e, c)
    && !(e.Slot? && e.nr < |t| && BlockedOn(t, e.nr) == Slot(c) && t[e.nr].sending != toSend)
  }

  /** A message is delivered to a receiver that was waiting for it. */
  function Delivered(t: Table, d: nat, m: Message): Table
    requires d < |t|
  {
    t[d := t[d].(deliverMsg := m, deliver := true, receiving := false)]
  }

  ghost function SendSpec(t: Table, c: nat, d: nat, body: int, nonBlocking: bool, copied: bool): (r: (Table, Result))
    requires c < |t| && d < |t|
    ensures |r.0| == |t|
  {
    if t[d].noEndpoint then (t, DeadSrcDst)
    else if WillReceive(t, d, c) then
      if !copied then (t, Fault)
      else
        var u := Delivered(t, d, Plain(c, body));
        (u[d := u[d].(replyPend := false)], Ok)
    else if nonBlocking then (t, NotReady)
    else if Deadlocked(t, true, c, Slot(d)) then (t, Locked)
    else if !copied then (t, Fault)
    else
      var u := t[c := t[c].(sendBody := body, sending := true, sendTo := d)];
      (u[d := u[d].(callers := u[d].callers + [c])], Ok)
  }

  /** Take the message of the `k`-th caller and let that caller go on. */
  function TakeCaller(t: Table, c: nat, k: nat): Table
    requires c < |t| && k < |t[c].callers| && t[c].callers[k] < |t|
  {
    var q := t[c].callers[k];
    var u := t[c := t[c].(deliverMsg := Plain(q, t[q].sendBody), deliver := true, callers := Without(t[c].callers, k))];
    u[q := u[q].(sending := false)]
  }

  function TakeNotification(t: Table, c: nat, n: nat): Table
    requires c < |t|
  {
    t[c := t[c].(pending := t[c].pending - {n}, deliverMsg := Notification(n), deliver := true)]
  }

  ghost function ReceiveSpec(t: Table, c: nat, src: Endpoint, nonBlocking: bool): (r: (Table, Result))
    requires c < |t| && (src.Slot? ==> src.nr < |t|)
    ensures |r.0| == |t|
  {
    var n := FindPending(t[c].pending, src, 0, |t|);
    var k := First(t[c].callers, src);
    if src.Slot? && t[src.nr].noEndpoint then (t, DeadSrcDst)
    else if !t[c].sending && !t[c].replyPend && n < |t| then
      (TakeNotification(t, c, n), Ok)
    else if !t[c].sending && k < |t[c].callers| && t[c].callers[k] < |t| then
      var u := TakeCaller(t, c, k);
      (u[c := u[c].(replyPend := false)], Ok)
    else if nonBlocking then (t, NotReady)
    else if Deadlocked(t, false, c, src) then (t, Locked)
    else (t[c := t[c].(getFrom := src, receiving := true)], Ok)
  }

  function NotifySpec(t: Table, c: nat, d: nat): Table
    requires c < |t| && d < |t|
  {
    if WillReceive(t, d, c) && !t[d].replyPend then Delivered(t, d, Notification(c))
    else t[d := t[d].(pending := t[d].pending + {c})]
  }

  function SetReplyPend(t: Table, c: nat, b: bool): Table
    requires c < |t|
  {
    t[c := t[c].(replyPend := b)]
  }

  /** A call that has passed the checks on its arguments and on the caller's privileges. */
  ghost function CallSpec(t: Table, call: Call, c: nat, e: Endpoint, body: int, copied: bool): (r: (Table, Result))
    requires c < |t| && (e.Slot? ==> e.nr < |t|) && (e == Any ==> call == Receive) && e != None
    ensures |r.0| == |t|
  {
    match call
    case Send => SendSpec(t, c, e.nr, body, false, copied)
    case SendNb => SendSpec(t, c, e.nr, body, true, copied)
    case Notify => (NotifySpec(t, c, e.nr), Ok)
    case Receive => ReceiveSpec(SetReplyPend(t, c, false), c, e, false)
    case SendRec =>
      var (u, r) := SendSpec(SetReplyPend(t, c, true), c, e.nr, body, false, copied);
      if r != Ok then (u, r) else ReceiveSpec(u, c, e, false)
  }
}
