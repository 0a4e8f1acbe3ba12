/** The backtracking matcher over a compiled program. */
module RegexMatch {
  import opened Bits
  import opened RegexSyntax
  import opened RegexMeaning
  import opened RegexCode
  import opened RegexOrder
  import opened RegexRun
  import opened RegexSafe
  import opened RegexSearch

  /** Where the character is next found, or -1. */
  function StrChr(s: seq<byte>, p: nat, c: byte): (r: int)
    requires p <= |s|
    ensures -1 <= r < |s| && (r >= 0 ==> p <= r && s[r] == c)
    ensures forall i :: p <= i < (if r < 0 then |s| else r) ==> s[i] != c
    decreases |s| - p
  {
    if p == |s| then -1 else if s[p] == c then p else StrChr(s, p + 1, c)
  }

  // ----- Steps of the matcher -----

  lemma FirstChar(s: seq<byte>, i: nat, t: seq<byte>)
    requires StartsWith(s, i, t) && t != []
    ensures i < |s| && s[i] == t[0]
  {
    assert s[i..i + |t|][0] == t[0];
  }

  /** What safety says of a repetition. */
  lemma RepeatSafe(code: seq<byte>, s: seq<byte>, p: nat, i: nat, n: nat)
    requires i <= |s| && Safe(code, p, s, i, n) && (code[p] == STARS || code[p] == PLUSES)
    ensures n > 0 && p > 0 && InCode(code, p + 3) && Repeatable(code, p + 3) && Next(code, p) > 0 && InCode(code, Next(code, p))
    ensures forall c: nat :: Min(code[p]) <= c <= Run(code, p + 3, s, i) ==> SafeAfter(code, Next(code, p), s, i, c, n)
  {
  }

  /** A literal that begins with another character does not match. */
  lemma LookAhead(code: seq<byte>, s: seq<byte>, p: nat, i: nat, n: nat)
    requires i <= |s| && p > 0 && InCode(code, p) && code[p] == EXACTLY && At(code, p + 3) != NUL
    requires NulFree(s) && At(s, i) != At(code, p + 3) && Safe(code, p, s, i, n)
    ensures Search(code, p, s, i) == Fail
  {
    OrdinarySearch(code, p, s, i, n);
    var t := CString(code, p + 3);
    if StartsWith(s, i, t) { FirstChar(s, i, t); }
  }

  lemma {:induction false} RunAny(code: seq<byte>, p: nat, s: seq<byte>, i: nat)
    requires InCode(code, p) && code[p] == ANY && i <= |s|
    ensures Run(code, p, s, i) == |s| - i
    decreases |s| - i
  {
    if i < |s| {
      RunAny(code, p, s, i + 1);
    }
  }

  class Regexp {
    const program: seq<byte>
    const regstart: byte
    const reganch: bool
    const regmust: nat
    const regmlen: byte
    const startp: array<int>
    const endp: array<int>
    var reginput: int

    constructor (program: seq<byte>, regstart: byte, reganch: bool, regmust: nat, regmlen: byte)
      ensures this.program == program && this.regstart == regstart && this.reganch == reganch
      ensures this.regmust == regmust && this.regmlen == regmlen
      ensures fresh(startp) && fresh(endp) && Shape()
    {
      this.program, this.regstart, this.reganch := program, regstart, reganch;
      this.regmust, this.regmlen := regmust, regmlen;
      startp := new int[NSUBEXP](_ => -1);
      endp := new int[NSUBEXP](_ => -1);
      reginput := 0;
    }

    ghost predicate Shape() {
      startp.Length == endp.Length == NSUBEXP && startp != endp
    }

    /** Repeatedly match something simple. */
    method Regrepeat(s: seq<byte>, p: nat) returns (count: nat)
      requires NulFree(s) && 0 <= reginput <= |s| && InCode(program, p) && Repeatable(program, p)
      modifies this`reginput
      ensures count == Run(program, p, s, old(reginput)) && reginput == old(reginput) + count
    {
      var scan: nat := reginput;
      count := 0;
      var op := program[p];
      if op == ANY {
        RunAny(program, p, s, scan);
        count := |s| - scan;
        scan := scan + count;
      } else if op == EXACTLY {
        while At(program, p + 3) == At(s, scan)
          invariant scan <= |s| && scan == reginput + count
          invariant Run(program, p, s, reginput) == count + Run(program, p, s, scan)
          decreases |s| - scan
        {
          count := count + 1;
          scan := scan + 1;
        }
      } else if op == ANYOF {
        while At(s, scan) != NUL && At(s, scan) in CString(program, p + 3)
          invariant scan <= |s| && scan == reginput + count
          invariant Run(program, p, s, reginput) == count + Run(program, p, s, scan)
          decreases |s| - scan
        {
          count := count + 1;
          scan := scan + 1;
        }
      } else {
        while At(s, scan) != NUL && At(s, scan) !in CString(program, p + 3)
          invariant scan <= |s| && scan == reginput + count
          invariant Run(program, p, s, reginput) == count + Run(program, p, s, scan)
          decreases |s| - scan
        {
          count := count + 1;
          scan := scan + 1;
        }
      }
      reginput := scan;
    }

    /** Nothing is noted of the bracketed parts. */
    ghost predicate Unset()
      reads startp, endp
    {
      startp[..] == NoBounds() && endp[..] == NoBounds()
    }

    /** What is noted, and where the input is left, is just what the search `r` comes to. */
    ghost predicate Shows(r: Result, ok: bool)
      reads this`reginput, startp, endp
    {
      && ok == r.Match?
      && if ok then reginput == r.end && startp[..] == r.starts && endp[..] == r.ends else Unset()
    }

    /**
     The main matching routine. `n` bounds the steps it can take; the safety of compiled programs
     supplies it.
     */
    method Regmatch(s: seq<byte>, prog: int, ghost n: nat) returns (ok: bool)
      requires Shape() && Unset() && NulFree(s) && 0 <= reginput <= |s|
      requires prog != NULL ==> Safe(program, prog, s, reginput, n)
      modifies this`reginput, startp, endp
      ensures Shows(Search(program, prog, s, old(reginput)), ok)
      decreases n
    {
      hide Search, Exec;
      if prog == NULL { NoSearch(program, s, reginput); }
      var scan := prog;
      ghost var i0: nat := reginput;
      ghost var m: nat := n;
      while scan != NULL
        invariant 0 <= reginput <= |s| && m <= n && Unset()
        invariant scan != NULL ==> Safe(program, scan, s, reginput, m)
        invariant Search(program, prog, s, i0) == Search(program, scan, s, reginput)
        decreases m
      {
        var next := Next(program, scan);
        var op := program[scan];
        if op == END {
          SearchEnd(program, scan, s, reginput, m);
          return true;
        } else if op == BRANCH {
          BranchSearch(program, scan, s, reginput, m);
          if program[next] != BRANCH {
            next := scan + 3;
          } else {
            ok := TryBranches(s, scan, m);
            return;
          }
        } else if op == STARS || op == PLUSES {
          ok := TryRepeats(s, scan, m);
          return;
        } else {
          OrdinarySearch(program, scan, s, reginput, m);
          if OPEN < op < OPEN + NSUBEXP {
            var save := reginput;
            ok := Regmatch(s, next, m - 1);
            if ok && startp[op - OPEN] == -1 {
              startp[op - OPEN] := save;
            }
            return;
          } else if CLOSE < op < CLOSE + NSUBEXP {
            var save := reginput;
            ok := Regmatch(s, next, m - 1);
            if ok && endp[op - CLOSE] == -1 {
              endp[op - CLOSE] := save;
            }
            return;
          }
          var matched := MatchOne(s, scan);
          if !matched {
            return false;
          }
        }
        m := m - 1;
        scan := next;
      }
      NoSearch(program, s, reginput);
      ok := false;
    }

    /** A node that takes a fixed stretch of the input, or none. */
    method MatchOne(s: seq<byte>, scan: nat) returns (matched: bool)
      requires NulFree(s) && 0 <= reginput <= |s| && InCode(program, scan)
      requires IsOrdinary(program[scan]) && HasText(program, scan)
      modifies this`reginput
      ensures matched == (Eats(program, scan, s, old(reginput)) >= 0)
      ensures reginput == old(reginput) + if matched then Eats(program, scan, s, old(reginput)) else 0
    {
      var op := program[scan];
      if op == BOL {
        return reginput == 0;
      } else if op == EOL {
        return At(s, reginput) == NUL;
      } else if op == ANY {
        if At(s, reginput) == NUL { return false; }
        reginput := reginput + 1;
      } else if op == EXACTLY {
        var opnd := CString(program, scan + 3);
        if At(program, scan + 3) != At(s, reginput) { return false; }
        if |opnd| > 1 && !StartsWith(s, reginput, opnd) { return false; }
        assert |opnd| == 1 ==> s[reginput..reginput + 1] == [s[reginput]];
        reginput := reginput + |opnd|;
      } else if op == ANYOF {
        if At(s, reginput) == NUL || At(s, reginput) !in CString(program, scan + 3) { return false; }
        reginput := reginput + 1;
      } else if op == ANYBUT {
        if At(s, reginput) == NUL || At(s, reginput) in CString(program, scan + 3) { return false; }
        reginput := reginput + 1;
      }
      matched := true;
    }

    /** One alternative after the other. */
    method TryBranches(s: seq<byte>, first: nat, ghost n: nat) returns (ok: bool)
      requires Shape() && Unset() && NulFree(s) && 0 <= reginput <= |s|
      requires Safe(program, first, s, reginput, n) && program[first] == BRANCH
      modifies this`reginput, startp, endp
      ensures Shows(Search(program, first, s, old(reginput)), ok)
      decreases n, 0
    {
      hide Search, Exec;
      var scan := first;
      ghost var i0: nat := reginput;
      ghost var m: nat := n;
      while true
        invariant reginput == i0 && m <= n && Unset()
        invariant Safe(program, scan, s, i0, m) && program[scan] == BRANCH
        invariant Search(program, first, s, i0) == Search(program, scan, s, i0)
        decreases m
      {
        BranchSearch(program, scan, s, i0, m);
        var save := reginput;
        ok := Regmatch(s, scan + 3, m - 1);
        if ok {
          return;
        }
        reginput := save;
        scan := Next(program, scan);
        m := m - 1;
        if scan == NULL || program[scan] != BRANCH {
          return false;
        }
      }
    }

    /** As many characters as possible first, then fewer. */
    method TryRepeats(s: seq<byte>, scan: nat, ghost n: nat) returns (ok: bool)
      requires Shape() && Unset() && NulFree(s) && 0 <= reginput <= |s|
      requires Safe(program, scan, s, reginput, n) && (program[scan] == STARS || program[scan] == PLUSES)
      modifies this`reginput, startp, endp
      ensures Shows(Search(program, scan, s, old(reginput)), ok)
      decreases n, 0
    {
      hide Safe, Search, Exec;
      RepeatSafe(program, s, scan, reginput, n);
      var next := Next(program, scan);
      var nextch := NUL;
      if program[next] == EXACTLY {
        nextch := At(program, next + 3);
      }
      var min := if program[scan] == STARS then 0 else 1;
      var save: nat := reginput;
      RepeatSearch(program, scan, s, save, n);
      var no: int := Regrepeat(s, scan + 3);
      ghost var f := From(program, next, s);
      while no >= min
        invariant -1 <= no <= Run(program, scan + 3, s, save) && reginput == save + no && Unset()
        invariant Search(program, scan, s, save) == BackOff(f, save, no, min)
        decreases no
      {
        assert SafeAfter(program, next, s, save, no, n);
        if nextch == NUL || At(s, reginput) == nextch {
          ok := Regmatch(s, next, n - 1);
          if ok {
            return;
          }
        } else {
          LookAhead(program, s, next, save + no, n - 1);
        }
        no := no - 1;
        reginput := save + no;
      }
      ok := false;
    }

    // ----- Trying every place -----

    /** What the compiler notes down to rule out hopeless places holds of every match. */
    ghost predicate Hints(a: Alts) {
      && (regstart != NUL ==> forall s: seq<byte>, i: nat, j: nat :: AltsMatch(a, s, i, j) ==> i < |s| && s[i] == regstart)
      && (reganch ==> forall s: seq<byte>, i: nat, j: nat :: AltsMatch(a, s, i, j) ==> i == 0)
      && (regmust != NULL ==> MustAppear(a, CString(program, regmust)) && 0 < |CString(program, regmust)| && regmlen <= |CString(program, regmust)|)
    }

    /** A compiled program for `a`, with hints that are true of it. */
    ghost predicate For(a: Alts) {
      Shape() && GoodAlts(a) && Program(program, a) && Hints(a)
    }

    /** What is noted is the first match of `a` that begins at `i`: its bounds, and those of its bracketed parts. */
    ghost predicate Reports(a: Alts, s: seq<byte>, i: nat)
      reads startp, endp
    {
      i <= |s| && Reported(First(a, s, i), i, startp[..], endp[..])
    }

    method Regtry(s: seq<byte>, at: nat, ghost a: Alts) returns (ok: bool)
      requires For(a) && NulFree(s) && at <= |s|
      modifies this`reginput, startp, endp
      ensures ok <==> MatchesAt(a, s, at)
      ensures ok ==> Reports(a, s, at)
    {
      hide First, Program;
      reginput := at;
      for i := 0 to NSUBEXP
        invariant forall t :: 0 <= t < i ==> startp[t] == -1 && endp[t] == -1
        invariant reginput == at
      {
        startp[i] := -1;
        endp[i] := -1;
      }
      ghost var n := ProgramSafe(program, a, s);
      ProgramSearch(program, a, s, at);
      FirstIsMatch(a, s, at);
      ok := Regmatch(s, 1, n);
      if ok {
        startp[0] := at;
        endp[0] := reginput;
      }
    }

    /** Whether the string that must appear does. */
    method MustFound(s: seq<byte>) returns (found: bool)
      requires CString(program, regmust) != [] && regmlen <= |CString(program, regmust)|
      ensures !found ==> forall p: nat :: !StartsWith(s, p, CString(program, regmust))
    {
      var must := CString(program, regmust);
      var p := StrChr(s, 0, must[0]);
      while p >= 0
        invariant -1 <= p < |s|
        invariant forall q: nat :: q < (if p < 0 then |s| else p) ==> !StartsWith(s, q, must)
        decreases if p < 0 then 0 else |s| - p
      {
        if StartsWith(s, p, must[..regmlen]) {
          return true;
        }
        if StartsWith(s, p, must) { Shorter(s, p, must, regmlen); }
        var next := StrChr(s, p + 1, must[0]);
        forall q: nat | q < (if next < 0 then |s| else next)
          ensures !StartsWith(s, q, must)
        {
          if q > p && StartsWith(s, q, must) { FirstChar(s, q, must); }
        }
        p := next;
      }
      forall q: nat
        ensures !StartsWith(s, q, must)
      {
        if StartsWith(s, q, must) { FirstChar(s, q, must); }
      }
      found := false;
    }

    /**
     Matches exactly if the expression matches somewhere; then what is noted is, of the matches that
     begin first, the one that comes first in the order of the search.
     */
    method Regexec(s: seq<byte>, ghost a: Alts) returns (ok: bool)
      requires For(a) && NulFree(s)
      modifies this`reginput, startp, endp
      ensures ok <==> Found(a, s)
      ensures ok ==> startp[0] >= 0 && Reports(a, s, startp[0])
      ensures ok ==> forall i: nat :: i < startp[0] ==> !MatchesAt(a, s, i)
    {
      if regmust != NULL {
        var found := MustFound(s);
        if !found {
          NothingWithout(a, s, CString(program, regmust));
          return false;
        }
      }
      if reganch {
        ok := Regtry(s, 0, a);
        return;
      }
      if regstart != NUL {
        var p := StrChr(s, 0, regstart);
        while p >= 0
          invariant -1 <= p < |s| && (p >= 0 ==> s[p] == regstart)
          invariant forall i: nat :: i < (if p < 0 then |s| else p) ==> !MatchesAt(a, s, i)
          decreases if p < 0 then 0 else |s| - p
        {
          ok := Regtry(s, p, a);
          if ok {
            return;
          }
          p := StrChr(s, p + 1, regstart);
        }
        return false;
      }
      var p := 0;
      while true
        invariant 0 <= p <= |s|
        invariant forall i: nat :: i < p ==> !MatchesAt(a, s, i)
        decreases |s| - p
      {
        ok := Regtry(s, p, a);
        if ok {
          return;
        }
        if At(s, p) == NUL {
          NoneBeyond(a, s);
          return false;
        }
        p := p + 1;
      }
    }
  }

  lemma NothingWithout(a: Alts, s: seq<byte>, t: seq<byte>)
    requires MustAppear(a, t) && forall p: nat :: !StartsWith(s, p, t)
    ensures !Found(a, s)
  {
    forall i: nat, j: nat
      ensures !AltsMatch(a, s, i, j)
    {
      if AltsMatch(a, s, i, j) {
        var there := Contains(s, t);
      }
    }
  }

  /** No match begins behind the end of the string. */
  lemma NoneBeyond(a: Alts, s: seq<byte>)
    requires GoodAlts(a)
    ensures forall i: nat :: i > |s| ==> !MatchesAt(a, s, i)
  {
    forall i: nat, j: nat | AltsMatch(a, s, i, j)
      ensures i <= |s|
    {
      AltsMove(a, s, i, j);
    }
  }

  /** Every string in which `a` matches contains `t`. */
  ghost predicate MustAppear(a: Alts, t: seq<byte>) {
    forall s: seq<byte>, i: nat, j: nat :: AltsMatch(a, s, i, j) ==> Contains(s, t)
  }

  ghost predicate Contains(s: seq<byte>, t: seq<byte>) {
    exists p: nat :: StartsWith(s, p, t)
  }

  lemma Shorter(s: seq<byte>, p: nat, t: seq<byte>, n: nat)
    requires StartsWith(s, p, t) && n <= |t|
    ensures StartsWith(s, p, t[..n])
  {
    assert s[p..p + n] == s[p..p + |t|][..n];
  }
}
