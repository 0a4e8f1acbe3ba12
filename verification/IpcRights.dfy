/** What the masks of a process are for: whom it can reach, over whole runs of calls that pass the checks. */
module IpcRights {
  import opened Ipc
  import opened IpcMail
  import opened IpcRuns
  import opened IpcSafety
  import opened ProcTable

  /** A process may make a call it is granted, to a partner it is granted; tasks take SENDREC only. */
  predicate May(g: seq<Grant>, tasks: nat, call: Call, c: nat, e: Endpoint)
    requires c < |g|
  {
    && call in g[c].trapMask
    && (call == Receive || (e.Slot? && e.nr in g[c].sendMask && (call == SendRec || e.nr >= tasks)))
  }

  predicate Granted(g: seq<Grant>, tasks: nat, ev: Event) {
    ev.Sync? ==> ev.c < |g| && May(g, tasks, ev.call, ev.c, ev.e)
  }

  /** The kernel does not tell `d` of an expired quantum in the name of `x`. */
  predicate Untold(ev: Event, x: nat, d: nat) {
    ev.Expire? ==> ev.c != x || ev.scheduler != d
  }

  predicate AllGranted(g: seq<Grant>, tasks: nat, evs: seq<Event>) {
    forall i :: 0 <= i < |evs| ==> Granted(g, tasks, evs[i])
  }

  predicate AllUntold(evs: seq<Event>, x: nat, d: nat) {
    forall i :: 0 <= i < |evs| ==> Untold(evs[i], x, d)
  }

  lemma {:induction false} NothingSent(t: Table, evs: seq<Event>, g: seq<Grant>, tasks: nat, m: Letter)
    requires Legal(t, evs) && AllGranted(g, tasks, evs) && AllUntold(evs, m.0, m.1)
    requires m.0 < |g| && m.1 !in g[m.0].sendMask
    ensures Sent(t, evs, m) == 0
    decreases |evs|
  {
    hide Apply, SendSpec;
    if evs != [] {
      assert Granted(g, tasks, evs[0]) && Untold(evs[0], m.0, m.1);
      assert forall i :: 0 <= i < |evs[1..]| ==> evs[1..][i] == evs[i + 1];
      NothingSent(Apply(t, evs[0]), evs[1..], g, tasks, m);
    }
  }

  lemma {:induction false} NobodyNotified(t: Table, evs: seq<Event>, g: seq<Grant>, tasks: nat, x: nat, d: nat)
    requires Legal(t, evs) && AllGranted(g, tasks, evs) && x < |g| && (d < tasks || d !in g[x].sendMask)
    ensures Notified(t, evs, x, d) == 0
    decreases |evs|
  {
    hide Apply;
    if evs != [] {
      assert Granted(g, tasks, evs[0]);
      assert forall i :: 0 <= i < |evs[1..]| ==> evs[1..][i] == evs[i + 1];
      NobodyNotified(Apply(t, evs[0]), evs[1..], g, tasks, x, d);
    }
  }

  /**
   From rest, in a run of calls that are all granted, nothing ever comes from `x` to a process it may not
   send to: no message and no notification, neither on its way nor copied out.
   */
  lemma Confined(t: Table, evs: seq<Event>, g: seq<Grant>, tasks: nat, x: nat, d: nat, body: int)
    requires AtRest(t) && Legal(t, evs) && AllGranted(g, tasks, evs) && AllUntold(evs, x, d)
    requires x < |g| && d < |t| && d !in g[x].sendMask
    ensures CopiedOut(t, evs, (x, d, body)) == InFlight(Run(t, evs), (x, d, body)) == 0
    ensures |Run(t, evs)| == |t| && Received(t, evs, x, d) == Notes(Run(t, evs), x, d) == 0
  {
    hide Run, Sent, CopiedOut, Notified, Received, Notes, InFlight;
    NothingSent(t, evs, g, tasks, (x, d, body));
    NobodyNotified(t, evs, g, tasks, x, d);
    RunFromRest(t, evs, (x, d, body), x);
    NotificationsFromRest(t, evs, x, d);
  }

  /** Nor does any notification come to a task. */
  lemma TasksUnnotified(t: Table, evs: seq<Event>, g: seq<Grant>, tasks: nat, x: nat, d: nat)
    requires AtRest(t) && Legal(t, evs) && AllGranted(g, tasks, evs) && x < |g| && d < |t| && d < tasks
    ensures |Run(t, evs)| == |t| && Received(t, evs, x, d) == Notes(Run(t, evs), x, d) == 0
  {
    hide Run, Notified, Received, Notes;
    NobodyNotified(t, evs, g, tasks, x, d);
    NotificationsFromRest(t, evs, x, d);
  }
}
