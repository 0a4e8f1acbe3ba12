/** The kernel's own check of its run queues, on tables that may be broken in any way. */
module RunQueues {
  import opened Links
  import opened Sched
  import opened ProcTable

  /** What the walk has met: `lists` up to queue `q`, `seen` in all, and the marks left in the table. */
  ghost predicate Walk(ps: seq<Proc>, lists: seq<seq<nat>>, seen: seq<nat>, found: seq<bool>) {
    && |lists| == NR_SCHED_QUEUES && |found| == |ps| && Distinct(seen)
    && (forall p :: 0 <= p < |ps| ==> (found[p] <==> p in seen))
    && (forall p :: p in seen ==>
          p < |ps| && ps[p].flags == {} && ps[p].priority < NR_SCHED_QUEUES && p in lists[ps[p].priority])
    && (forall q, p :: 0 <= q < NR_SCHED_QUEUES && p in lists[q] ==> p in seen && ps[p].priority == q)
  }

  /** A queue that has been walked to its end. */
  ghost predicate WalkedAt(ps: seq<Proc>, lists: seq<seq<nat>>, head: seq<int>, tail: seq<int>, q: nat)
    requires |lists| == |head| == |tail| == NR_SCHED_QUEUES && q < NR_SCHED_QUEUES
  {
    IsList(head[q], lists[q], NextReady(ps)) && tail[q] == Last(lists[q])
  }

  /** The walk along one queue: it has met `list` and stands at `x`. */
  ghost predicate Along(ps: seq<Proc>, head: int, list: seq<nat>, x: int) {
    && Distinct(list)
    && (forall k :: 0 <= k < |list| ==> list[k] < |ps|)
    && head == (if list == [] then x else list[0])
    && (list != [] ==> x == ps[list[|list| - 1]].nextReady)
    && forall k :: 0 <= k < |list| - 1 ==> ps[list[k]].nextReady == list[k + 1]
  }

  lemma MetOnce(ps: seq<Proc>, seen: seq<nat>, x: nat)
    requires Distinct(seen) && x !in seen && x < |ps| && forall p :: p in seen ==> p < |ps|
    ensures Distinct(seen + [x]) && |seen| < |ps|
  {
    assert forall i :: 0 <= i < |seen| ==> seen[i] in seen;
    Fits(seen + [x], |ps|);
  }

  lemma Step(ps: seq<Proc>, lists: seq<seq<nat>>, seen: seq<nat>, found: seq<bool>, q: nat, head: int, x: nat)
    requires Walk(ps, lists, seen, found) && q < NR_SCHED_QUEUES && x < |ps|
    requires Along(ps, head, lists[q], x) && !found[x] && ps[x].flags == {} && ps[x].priority == q
    ensures Walk(ps, lists[q := lists[q] + [x]], seen + [x], found[x := true])
    ensures Along(ps, head, lists[q] + [x], ps[x].nextReady)
    ensures |seen| < |ps|
  {
    var lists' := lists[q := lists[q] + [x]];
    MetOnce(ps, seen, x);
    forall r, p | 0 <= r < NR_SCHED_QUEUES && p in lists'[r]
      ensures p in seen + [x] && ps[p].priority == r
    {
      assert r != q ==> p in lists[r];
      assert r == q ==> p in lists[q] || p == x;
    }
    forall p | p in seen + [x]
      ensures p < |ps| && ps[p].flags == {} && ps[p].priority < NR_SCHED_QUEUES && p in lists'[ps[p].priority]
    {
      assert p in seen || p == x;
    }
  }

  lemma End(ps: seq<Proc>, lists: seq<seq<nat>>, head: seq<int>, tail: seq<int>, q: nat)
    requires |lists| == |head| == |tail| == NR_SCHED_QUEUES && q < NR_SCHED_QUEUES
    requires Along(ps, head[q], lists[q], NULL) && tail[q] == Last(lists[q])
    ensures WalkedAt(ps, lists, head, tail, q)
  {
    forall k | 0 <= k < |lists[q]|
      ensures LinkAt(lists[q], NextReady(ps), k)
    {
    }
  }

  /** All queues walked and every runnable process met: the lists are as they should be. */
  lemma AllWalked(ps: seq<Proc>, lists: seq<seq<nat>>, seen: seq<nat>, found: seq<bool>, head: seq<int>, tail: seq<int>)
    requires Walk(ps, lists, seen, found) && |head| == |tail| == NR_SCHED_QUEUES
    requires forall q :: 0 <= q < NR_SCHED_QUEUES ==> WalkedAt(ps, lists, head, tail, q)
    requires forall p :: 0 <= p < |ps| && ps[p].flags == {} ==> found[p]
    ensures Rightful(ps, head, tail)
  {
    forall q | 0 <= q < NR_SCHED_QUEUES
      ensures RightAt(ps, lists, head, tail, q)
    {
      assert WalkedAt(ps, lists, head, tail, q);
      assert forall p: nat :: p in lists[q] ==> p in seen && ps[p].priority == q;
    }
    forall p | 0 <= p < |ps| && ps[p].flags == {}
      ensures OnSome(lists, p)
    {
      assert p in seen && p in lists[ps[p].priority];
    }
    assert AllRight(ps, lists, head, tail);
  }

  /** The walk stands before queue `q`; if there are right queues at all, it has met just those before `q`. */
  ghost predicate Before(ps: seq<Proc>, lists: seq<seq<nat>>, seen: seq<nat>, found: seq<bool>,
                         head: seq<int>, tail: seq<int>, q: nat, ready: seq<seq<nat>>)
    requires |head| == |tail| == NR_SCHED_QUEUES && q <= NR_SCHED_QUEUES
  {
    && Walk(ps, lists, seen, found)
    && (forall r :: 0 <= r < q ==> WalkedAt(ps, lists, head, tail, r))
    && (forall r :: q <= r < NR_SCHED_QUEUES ==> lists[r] == [])
    && (AllRight(ps, ready, head, tail) ==> lists[..q] == ready[..q])
  }

  /** The walk stands at `x` in queue `q`. */
  ghost predicate Inside(ps: seq<Proc>, lists: seq<seq<nat>>, seen: seq<nat>, found: seq<bool>,
                         head: seq<int>, tail: seq<int>, q: nat, ready: seq<seq<nat>>, x: int)
    requires |head| == |tail| == NR_SCHED_QUEUES && q < NR_SCHED_QUEUES
  {
    && Walk(ps, lists, seen, found) && Along(ps, head[q], lists[q], x)
    && (forall r :: 0 <= r < q ==> WalkedAt(ps, lists, head, tail, r))
    && (forall r :: q < r < NR_SCHED_QUEUES ==> lists[r] == [])
    && (x == NULL ==> tail[q] == Last(lists[q]))
    && (AllRight(ps, ready, head, tail) ==>
          lists[..q] == ready[..q] && lists[q] <= ready[q] && x == Node(ready[q], |lists[q]|))
  }

  lemma Onward(ps: seq<Proc>, lists: seq<seq<nat>>, seen: seq<nat>, found: seq<bool>,
               head: seq<int>, tail: seq<int>, q: nat, ready: seq<seq<nat>>, x: nat)
    requires |head| == |tail| == NR_SCHED_QUEUES && q < NR_SCHED_QUEUES && x < |ps|
    requires Inside(ps, lists, seen, found, head, tail, q, ready, x)
    requires !found[x] && ps[x].flags == {} && ps[x].priority == q
    requires ps[x].nextReady == NULL ==> tail[q] == x
    ensures Inside(ps, lists[q := lists[q] + [x]], seen + [x], found[x := true], head, tail, q, ready, ps[x].nextReady)
    ensures |seen| < |ps|
  {
    Step(ps, lists, seen, found, q, head[q], x);
    var lists' := lists[q := lists[q] + [x]];
    forall r | 0 <= r < q
      ensures WalkedAt(ps, lists', head, tail, r)
    {
      assert WalkedAt(ps, lists, head, tail, r);
    }
    if AllRight(ps, ready, head, tail) {
      NoFault(ps, ready, head, tail, q, |lists[q]|);
      assert lists'[..q] == lists[..q];
    }
  }

  lemma Leave(ps: seq<Proc>, lists: seq<seq<nat>>, seen: seq<nat>, found: seq<bool>,
              head: seq<int>, tail: seq<int>, q: nat, ready: seq<seq<nat>>)
    requires |head| == |tail| == NR_SCHED_QUEUES && q < NR_SCHED_QUEUES
    requires Inside(ps, lists, seen, found, head, tail, q, ready, NULL)
    ensures Before(ps, lists, seen, found, head, tail, q + 1, ready)
  {
    End(ps, lists, head, tail, q);
    if AllRight(ps, ready, head, tail) {
      assert |lists[q]| == |ready[q]|;
      assert lists[q] == ready[q];
      assert lists[..q + 1] == lists[..q] + [lists[q]];
      assert ready[..q + 1] == ready[..q] + [ready[q]];
    }
  }

  /** On right queues the walk meets no fault at the `k`-th process of queue `q`. */
  lemma NoFault(ps: seq<Proc>, ready: seq<seq<nat>>, head: seq<int>, tail: seq<int>, q: nat, k: nat)
    requires AllRight(ps, ready, head, tail) && q < NR_SCHED_QUEUES && k <= |ready[q]|
    ensures head[q] == Node(ready[q], 0) && tail[q] == Last(ready[q])
    ensures k < |ready[q]| ==>
      var x := ready[q][k];
      && x < |ps| && ps[x].flags == {} && ps[x].priority == q && ps[x].nextReady == Node(ready[q], k + 1)
      && (ps[x].nextReady == NULL ==> tail[q] == x)
      && x !in ready[q][..k]
    ensures ready[q] != [] ==> tail[q] != NULL && tail[q] < |ps| && ps[tail[q]].nextReady == NULL
  {
    assert RightAt(ps, ready, head, tail, q);
    if ready[q] != [] {
      var last := |ready[q]| - 1;
      assert LinkAt(ready[q], NextReady(ps), last);
      assert ready[q][last] in ready[q];
    }
    if k < |ready[q]| {
      assert LinkAt(ready[q], NextReady(ps), k);
      assert ready[q][k] in ready[q];
    }
  }

  /** Right queues raise none of the objections at `x`. */
  lemma NoObjection(ps: seq<Proc>, lists: seq<seq<nat>>, seen: seq<nat>, found: seq<bool>,
                    head: seq<int>, tail: seq<int>, q: nat, ready: seq<seq<nat>>, x: int)
    requires |head| == |tail| == NR_SCHED_QUEUES && q < NR_SCHED_QUEUES && x != NULL
    requires Inside(ps, lists, seen, found, head, tail, q, ready, x) && AllRight(ps, ready, head, tail)
    ensures 0 <= x < |ps| && ps[x].flags == {} && ps[x].priority == q && !found[x]
    ensures ps[x].nextReady == NULL ==> tail[q] == x
  {
    NoFault(ps, ready, head, tail, q, |lists[q]|);
    var list := lists[q];
    assert list == ready[q][..|list|];
    assert x in seen ==> x in list;
  }

  /** When all queues are walked, a runnable process has been met. */
  lemma Belongs(ps: seq<Proc>, lists: seq<seq<nat>>, seen: seq<nat>, found: seq<bool>,
                head: seq<int>, tail: seq<int>, ready: seq<seq<nat>>, p: nat)
    requires |head| == |tail| == NR_SCHED_QUEUES && p < |ps| && ps[p].flags == {}
    requires Before(ps, lists, seen, found, head, tail, NR_SCHED_QUEUES, ready) && AllRight(ps, ready, head, tail)
    ensures found[p]
  {
    assert OnSome(ready, p);
    var q :| 0 <= q < |ready| && p in ready[q];
    assert RightAt(ps, ready, head, tail, q);
    assert lists[q] == lists[..NR_SCHED_QUEUES][q] == ready[..NR_SCHED_QUEUES][q];
  }
}
