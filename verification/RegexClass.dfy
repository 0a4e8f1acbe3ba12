/** What stands between square brackets: single characters, and ranges between neighbours of a dash. */
module RegexClass {
  import opened Bits
  import opened RegexSyntax

  /** The dash at `k` makes a range of its neighbours: it is neither at an end nor the end of a range itself. */
  predicate IsDash(t: seq<byte>, k: nat) {
    0 < k && k + 1 < |t| && t[k] == MINUS && !IsDash(t, k - 1)
  }

  predicate Covers(t: seq<byte>, k: nat, c: byte)
    requires k < |t|
  {
    if IsDash(t, k) then t[k - 1] <= c <= t[k + 1] else c == t[k]
  }

  /** The character belongs to the class. */
  ghost predicate InClass(t: seq<byte>, c: byte) {
    CoveredFrom(t, 0, c)
  }

  ghost predicate CoveredFrom(t: seq<byte>, k: nat, c: byte) {
    exists j: nat :: k <= j < |t| && Covers(t, j, c)
  }

  /** No range runs backwards. */
  ghost predicate InOrder(t: seq<byte>) {
    InOrderFrom(t, 0)
  }

  ghost predicate InOrderFrom(t: seq<byte>, k: nat) {
    forall j: nat :: k <= j && IsDash(t, j) ==> t[j - 1] <= t[j + 1]
  }

  /** A text that can stand between brackets: a closing bracket is its first character or none. */
  predicate Enclosable(t: seq<byte>) {
    t != [] && forall k :: 1 <= k < |t| ==> t[k] != RBRACK
  }

  /** `t` stands from `p` to the closing bracket. */
  predicate Encloses(e: seq<byte>, p: nat, t: seq<byte>) {
    p + |t| < |e| && e[p..p + |t|] == t && e[p + |t|] == RBRACK && Enclosable(t)
  }

  /** These are the members. */
  ghost predicate Members(t: seq<byte>, c: seq<byte>) {
    forall x: byte :: x in c <==> InClass(t, x)
  }

  /** The next position, read alone. */
  lemma CoveredNext(t: seq<byte>, k: nat, c: byte)
    requires k < |t|
    ensures CoveredFrom(t, k, c) <==> Covers(t, k, c) || CoveredFrom(t, k + 1, c)
  {
  }

  /** The reader within a class: `k` characters are behind it, the last of them among the members noted in `acc`. */
  lemma {:induction false} ClassReads(e: seq<byte>, p: nat, t: seq<byte>, k: nat, acc: seq<byte>)
    requires NulFree(e) && NulFree(acc) && 0 < p && Encloses(e, p, t) && k <= |t|
    requires if k > 0 then !IsDash(t, k - 1) && t[k - 1] in acc else t[0] != MINUS && t[0] != RBRACK
    ensures var r := ParseClass(e, p + k, acc);
      && (r.Parsed? <==> InOrderFrom(t, k))
      && (r.Parsed? ==> r.pos == p + |t| + 1 && r.npar == 0 && forall x: byte :: x in r.it <==> x in acc || CoveredFrom(t, k, x))
    decreases |t| - k
  {
    assert forall j :: 0 <= j < |t| ==> At(e, p + j) == t[j] && t[j] != NUL;
    if k < |t| {
      var dash := t[k] == MINUS && k + 1 < |t|;
      assert IsDash(t, k) == dash;
      if dash {
        if t[k - 1] <= t[k + 1] {
          var more := Range(t[k - 1] as int + 1, t[k + 1]);
          ClassReads(e, p, t, k + 2, acc + more);
          forall x: byte
            ensures x in acc + more || CoveredFrom(t, k + 2, x) <==> x in acc || CoveredFrom(t, k, x)
          {
            CoveredNext(t, k, x);
            CoveredNext(t, k + 1, x);
          }
        }
      } else {
        ClassReads(e, p, t, k + 1, acc + [t[k]]);
        forall x: byte
          ensures x in acc + [t[k]] || CoveredFrom(t, k + 1, x) <==> x in acc || CoveredFrom(t, k, x)
        {
          CoveredNext(t, k, x);
        }
      }
    }
  }

  /** Two ranges that share an end are one: the end of a range can begin the next. */
  lemma ChainedRanges(x: byte, y: byte, z: byte, c: byte)
    requires x <= y <= z
    ensures InClass([x, MINUS, y, MINUS, z], c) <==> x <= c <= z
  {
    var t := [x, MINUS, y, MINUS, z];
    assert !IsDash(t, 0) && IsDash(t, 1) && !IsDash(t, 2) && IsDash(t, 3) && !IsDash(t, 4);
    assert Covers(t, 1, c) <==> x <= c <= y;
    assert Covers(t, 3, c) <==> y <= c <= z;
  }

  /** What the reader passes over holds no closing bracket. */
  lemma {:induction false} NoBracketInside(e: seq<byte>, p: nat, acc: seq<byte>)
    requires NulFree(e) && NulFree(acc) && 0 < p <= |e|
    ensures var r := ParseClass(e, p, acc); r.Parsed? ==> forall j :: p <= j < r.pos - 1 ==> e[j] != RBRACK
    decreases |e| - p
  {
    if At(e, p) != NUL && At(e, p) != RBRACK {
      if At(e, p) == MINUS {
        if At(e, p + 1) == RBRACK || At(e, p + 1) == NUL {
          NoBracketInside(e, p + 1, acc + [MINUS]);
        } else if e[p - 1] <= At(e, p + 1) {
          NoBracketInside(e, p + 2, acc + Range(e[p - 1] as int + 1, e[p + 1]));
        }
      } else {
        NoBracketInside(e, p + 1, acc + [e[p]]);
      }
    }
  }

  /** Of an enclosed text the reader accepts just those without backward ranges, and notes their members. */
  lemma SetReads(e: seq<byte>, p: nat, t: seq<byte>)
    requires NulFree(e) && 0 < p && Encloses(e, p, t)
    ensures var r := ParseSet(e, p);
      && (r.Parsed? <==> InOrder(t))
      && (r.Parsed? ==> r.pos == p + |t| + 1 && r.npar == 0 && Members(t, r.it))
  {
    assert At(e, p) == t[0];
    if t[0] == RBRACK || t[0] == MINUS {
      ClassReads(e, p, t, 1, [t[0]]);
      forall x: byte
        ensures InClass(t, x) <==> x == t[0] || CoveredFrom(t, 1, x)
      {
        CoveredNext(t, 0, x);
      }
    } else {
      ClassReads(e, p, t, 0, []);
    }
  }

  /** A class is accepted exactly if such a text stands there. */
  lemma SetAccepted(e: seq<byte>, p: nat)
    requires NulFree(e) && 0 < p <= |e|
    ensures ParseSet(e, p).Parsed? <==> exists t :: Encloses(e, p, t) && InOrder(t)
  {
    var r := ParseSet(e, p);
    if r.Parsed? {
      var t := e[p..r.pos - 1];
      if At(e, p) == RBRACK || At(e, p) == MINUS { NoBracketInside(e, p + 1, [e[p]]); } else { NoBracketInside(e, p, []); }
      assert Encloses(e, p, t);
      SetReads(e, p, t);
    }
    if t :| Encloses(e, p, t) && InOrder(t) { SetReads(e, p, t); }
  }
}
