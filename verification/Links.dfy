/** Singly linked lists threaded through a table: links are slot numbers, -1 is the null pointer. */
module Links {
  const NULL: int := -1

  function Node(q: seq<nat>, k: nat): int {
    if k < |q| then q[k] else NULL
  }

  ghost predicate Distinct(q: seq<nat>) {
    forall i, j :: 0 <= i < j < |q| ==> q[i] != q[j]
  }

  function Without(q: seq<nat>, k: nat): seq<nat>
    requires k < |q|
  {
    q[..k] + q[k + 1..]
  }

  lemma WithoutOne(q: seq<nat>, k: nat)
    requires k < |q| && Distinct(q)
    ensures Distinct(Without(q, k)) && forall p :: p in Without(q, k) <==> p in q && p != q[k]
  {
    forall p | p in q && p != q[k]
      ensures p in Without(q, k)
    {
      var i :| 0 <= i < |q| && q[i] == p;
      assert p == Without(q, k)[if i < k then i else i - 1];
    }
  }

  ghost predicate LinkAt(q: seq<nat>, next: seq<int>, k: nat)
    requires k < |q|
  {
    q[k] < |next| && next[q[k]] == Node(q, k + 1)
  }

  /** Starting at `head` and following `next`, one meets the slots of `q` in order. */
  ghost predicate IsList(head: int, q: seq<nat>, next: seq<int>) {
    && head == Node(q, 0)
    && Distinct(q)
    && forall k :: 0 <= k < |q| ==> LinkAt(q, next, k)
  }

  lemma Frame(head: int, q: seq<nat>, next: seq<int>, next': seq<int>)
    requires IsList(head, q, next) && |next'| == |next|
    requires forall p :: p in q && p < |next| ==> next'[p] == next[p]
    ensures IsList(head, q, next')
  {
    forall k | 0 <= k < |q|
      ensures LinkAt(q, next', k)
    {
      assert LinkAt(q, next, k);
      assert q[k] in q;
    }
  }

  /** Chain a slot behind the last one. */
  lemma Append(head: int, q: seq<nat>, next: seq<int>, p: nat)
    requires IsList(head, q, next) && p < |next| && p !in q
    ensures q == [] ==> IsList(p, [p], next[p := NULL])
    ensures q != [] ==> q[|q| - 1] < |next| && IsList(head, q + [p], next[q[|q| - 1] := p][p := NULL])
  {
    if q != [] {
      var last := |q| - 1;
      assert LinkAt(q, next, last);
      var r, m := q + [p], next[q[last] := p][p := NULL];
      forall k | 0 <= k < |r|
        ensures LinkAt(r, m, k)
      {
        if k < |q| { assert LinkAt(q, next, k); }
      }
    }
  }

  lemma Prepend(head: int, q: seq<nat>, next: seq<int>, p: nat)
    requires IsList(head, q, next) && p < |next| && p !in q
    ensures IsList(p, [p] + q, next[p := head])
  {
    var r, m := [p] + q, next[p := head];
    forall k | 0 <= k < |r|
      ensures LinkAt(r, m, k)
    {
      if k > 0 { assert LinkAt(q, next, k - 1); }
    }
  }

  /** Unlink the slot at place `k` by redirecting the link that leads to it. */
  lemma Unlink(head: int, q: seq<nat>, next: seq<int>, k: nat)
    requires IsList(head, q, next) && k < |q|
    ensures q[k] < |next|
    ensures k == 0 ==> IsList(next[q[0]], Without(q, 0), next)
    ensures k > 0 ==> q[k - 1] < |next| && IsList(head, Without(q, k), next[q[k - 1] := next[q[k]]])
  {
    assert LinkAt(q, next, k);
    var r := Without(q, k);
    if k == 0 {
      forall j | 0 <= j < |r|
        ensures LinkAt(r, next, j)
      {
        assert LinkAt(q, next, j + 1);
      }
    } else {
      assert LinkAt(q, next, k - 1);
      var m := next[q[k - 1] := next[q[k]]];
      forall j | 0 <= j < |r|
        ensures LinkAt(r, m, j)
      {
        assert LinkAt(q, next, if j < k then j else j + 1);
      }
    }
  }

  /** Distinct slots are no more than the table has. */
  lemma {:induction false} Fits(q: seq<nat>, n: nat)
    requires Distinct(q) && forall i :: 0 <= i < |q| ==> q[i] < n
    ensures |q| <= n
    decreases n
  {
    if q == [] {
      return;
    }
    assert q[0] < n;
    if n - 1 in q {
      var i :| 0 <= i < |q| && q[i] == n - 1;
      Fits(Without(q, i), n - 1);
    } else {
      Fits(q, n - 1);
    }
  }
}
