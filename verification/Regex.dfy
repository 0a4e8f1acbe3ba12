/** Compiling a pattern and matching with it. */
module Regex {
  import opened Bits
  import opened RegexSyntax
  import opened RegexMeaning
  import opened RegexCode
  import opened RegexOrder
  import opened RegexBest
  import opened RegexTrees
  import opened RegexSpelling
  import opened RegexRun
  import opened RegexBuild
  import opened RegexMatch
  import opened RegexHints
  import C = RegexCompile

  datatype Outcome = Compiled(re: Regexp) | Rejected(error: Error)

  /** The longest literal that must appear, the later one among equals; NULL if there is none. */
  method FindMust(code: seq<byte>, ghost a: Alts) returns (longest: nat, len: nat)
    requires Program(code, a) && a.One? && GoodBranch(a.b)
    ensures longest != NULL ==>
      MustAppear(a, CString(code, longest)) && len == |CString(code, longest)| && CString(code, longest) != []
    ensures longest == NULL ==> len == 0
    ensures LongestText(a.b) == if longest == NULL then [] else CString(code, longest)
  {
    hide Laid, LaidBranch, Node, Standing, BranchSize;
    ghost var e := 1 + AltsSize(a);
    longest, len := 0, 0;
    var scan: int := 4;
    ghost var p, rest := 4, a.b;
    StartStanding(code, a);
    while scan != NULL
      invariant scan != NULL ==> 0 < scan < |code| && Standing(code, scan, p, rest, e)
      invariant forall t: seq<byte> :: Among(t, rest) ==> Among(t, a.b)
      invariant longest != NULL ==>
        len == |CString(code, longest)| && CString(code, longest) != [] && Among(CString(code, longest), a.b)
      invariant longest == NULL ==> len == 0
      invariant scan == NULL ==> rest == Empty
      invariant LongestText(a.b) == Longer(if longest == NULL then [] else CString(code, longest), LongestText(rest))
      decreases if scan == NULL then 0 else |code| - scan
    {
      ghost var p', rest' := Advance(code, scan, p, rest, e);
      if rest.Then? { LongerOn(if longest == NULL then [] else CString(code, longest), rest); }
      if code[scan] == EXACTLY { TextOf(code, scan + 3, rest); }
      if code[scan] == EXACTLY && |CString(code, scan + 3)| >= len {
        longest := scan + 3;
        len := |CString(code, scan + 3)|;
      }
      scan := Next(code, scan);
      if scan != NULL { InStanding(code, scan, p', rest', e); }
      p, rest := p', rest';
    }
    if longest != NULL { MustHold(a.b, CString(code, longest)); }
  }

  lemma StartStanding(code: seq<byte>, a: Alts)
    requires Program(code, a) && a.One? && GoodBranch(a.b)
    ensures Standing(code, 4, 4, a.b, 1 + AltsSize(a))
  {
    hide Laid, LaidBranch, Node, Skips;
    var e := 1 + AltsSize(a);
    AltsParts(code, 1, a, Count(a), e);
    if a.b.Then? { Enter(code, 4, a.b, e); } else { EmptyLaid(code, 4, e); }
  }

  lemma EmptyLaid(code: seq<byte>, p: nat, k: int)
    requires LaidBranch(code, p, Empty, k)
    ensures Node(code, p, NOTHING, k)
  {
  }

  lemma InStanding(code: seq<byte>, scan: nat, p: nat, rest: Branch, e: nat)
    requires Standing(code, scan, p, rest, e)
    ensures scan < |code|
  {
  }

  lemma TextOf(code: seq<byte>, q: nat, rest: Branch)
    requires rest.Then? && rest.first.Text? && Operand(code, q, rest.first.t) && GoodBranch(rest)
    ensures CString(code, q) == rest.first.t && rest.first.t != [] && Among(rest.first.t, rest)
  {
    CStringIs(code, q, rest.first.t, 0);
  }

  /** The first choice node tells whether there is another. */
  lemma OneOrMore(code: seq<byte>, a: Alts)
    requires Program(code, a)
    ensures InCode(code, 1) && 0 < Next(code, 1) && InCode(code, Next(code, 1)) && (code[Next(code, 1)] == END <==> a.One?)
  {
    hide LaidAlts, LaidBranch, Node;
    var e := 1 + AltsSize(a);
    AltsParts(code, 1, a, Count(a), e);
    var k := if a.Or? then 4 + BranchSize(a.b) else e;
    NextIs(code, 1, BRANCH, k);
    if a.Or? {
      OpOf(code, k, BRANCH, if a.others.Or? then k + 3 + BranchSize(a.others.b) else e);
    } else {
      OpOf(code, e, END, NULL);
    }
  }

  /** The beginning of the only alternative. */
  lemma Beginning(code: seq<byte>, a: Alts)
    requires Program(code, a) && GoodAlts(a) && a.One?
    ensures InCode(code, 4) && (code[4] == BOL ==> a.b.Then? && a.b.first == Bol)
    ensures code[4] == EXACTLY ==> a.b.Then? && a.b.first.Text? && a.b.first.t != [] && At(code, 7) == a.b.first.t[0]
    ensures a.b.Then? ==> (a.b.first.Bol? ==> code[4] == BOL) && (a.b.first.Text? ==> code[4] == EXACTLY)
  {
    hide Laid, LaidAlts, LaidBranch, Node, Good;
    var e := 1 + AltsSize(a);
    AltsParts(code, 1, a, Count(a), e);
    if a.b.Then? {
      var k := NextAfter(4, a.b, e);
      PiecesApart(code, 4, a.b, e);
      GoodText(a);
      FirstOp(code, 4, a.b.first, k);
      if a.b.first.Text? { TextLaid(code, 4, a.b.first, k); }
    } else {
      EmptyLaid(code, 4, e);
      OpOf(code, 4, NOTHING, e);
    }
  }

  /** The hints are all that can be had: the first literal, the anchor, and the longest literal if anything is expensive. */
  ghost predicate FullyHinted(re: Regexp, a: Alts) {
    && re.regstart == (if a.One? && a.b.Then? && a.b.first.Text? then At(a.b.first.t, 0) else NUL)
    && re.reganch == (a.One? && a.b.Then? && a.b.first.Bol?)
    && (re.regmust != NULL <==> AltsSpStart(a) && a.One? && LongestText(a.b) != [])
    && (re.regmust != NULL ==> CString(re.program, re.regmust) == LongestText(a.b))
  }

  /**
   Compile a pattern. A pattern is rejected just when it cannot be read, for the reason the reader
   gives, or when its program is too long.
   */
  method Regcomp(exp: seq<byte>) returns (o: Outcome)
    requires NulFree(exp)
    ensures match Parse(exp)
      case Bad(m) => o == Rejected(m)
      case Parsed(a, _, _) =>
        if 4 + AltsSize(a) >= C.LIMIT then o == Rejected(TooBig)
        else o.Compiled? && fresh(o.re) && fresh(o.re.startp) && fresh(o.re.endp) && o.re.For(a) && FullyHinted(o.re, a)
  {
    hide Program;
    ghost var r := Parse(exp);
    var c := new C.Compiler(exp);
    var error, spStart := c.Pass();
    if error.Some? {
      return Rejected(error.error);
    }
    if c.regsize >= C.LIMIT {
      return Rejected(TooBig);
    }
    c.StartWriting();
    error, spStart := c.Pass();
    assert error == C.None;
    var regstart, reganch, regmust, regmlen := FindHints(c.code[..], spStart, r.it);
    var re := new Regexp(c.code[..], regstart, reganch, regmust, regmlen);
    o := Compiled(re);
  }

  /** What is known of the beginning and the contents of every match. The length is kept in one byte. */
  method FindHints(code: seq<byte>, spStart: bool, ghost a: Alts)
    returns (regstart: byte, reganch: bool, regmust: nat, regmlen: byte)
    requires Program(code, a) && GoodAlts(a)
    ensures regstart != NUL ==> forall s: seq<byte>, i: nat, j: nat :: AltsMatch(a, s, i, j) ==> i < |s| && s[i] == regstart
    ensures reganch ==> forall s: seq<byte>, i: nat, j: nat :: AltsMatch(a, s, i, j) ==> i == 0
    ensures regmust != NULL ==>
      MustAppear(a, CString(code, regmust)) && 0 < |CString(code, regmust)| && regmlen <= |CString(code, regmust)|
    ensures regstart == (if a.One? && a.b.Then? && a.b.first.Text? then At(a.b.first.t, 0) else NUL)
    ensures reganch == (a.One? && a.b.Then? && a.b.first.Bol?)
    ensures regmust != NULL <==> spStart && a.One? && LongestText(a.b) != []
    ensures regmust != NULL ==> CString(code, regmust) == LongestText(a.b)
  {
    hide Program;
    regstart, reganch, regmust, regmlen := NUL, false, 0, 0;
    OneOrMore(code, a);
    var scan := 1;
    if code[Next(code, scan)] == END {
      scan := scan + 3;
      Beginning(code, a);
      forall s: seq<byte>, i: nat, j: nat | AltsMatch(a, s, i, j)
        ensures code[4] == EXACTLY ==> i < |s| && s[i] == At(code, 7)
        ensures code[4] == BOL ==> i == 0
      {
        if code[4] == EXACTLY { TextFirst(a, s, i, j); } else if code[4] == BOL { BolFirst(a, s, i, j); }
      }
      if code[scan] == EXACTLY {
        regstart := At(code, scan + 3);
      } else if code[scan] == BOL {
        reganch := true;
      }
      if spStart {
        var longest, len := FindMust(code, a);
        regmust := longest;
        regmlen := len % 256;
      }
    }
  }

  /** The bounds are those of the preferred way to match, each part's the last time round, the whole first. */
  ghost predicate BestNoted(a: Alts, s: seq<byte>, starts: seq<int>, ends: seq<int>)
    requires |starts| == |ends| == NSUBEXP
  {
    && 0 <= starts[0] <= ends[0] <= |s|
    && exists t :: IsBest(a, s, starts[0], ends[0], t) && BoundsOf(t, starts, ends)
  }

  predicate BoundsOf(t: Tree, starts: seq<int>, ends: seq<int>)
    requires |starts| == |ends| == NSUBEXP
  {
    forall n :: 1 <= n < NSUBEXP ==> (starts[n], ends[n]) == Bounds(t, n)
  }

  lemma NoteIs(a: Alts, s: seq<byte>, starts: seq<int>, ends: seq<int>)
    requires |starts| == |ends| == NSUBEXP && GoodAlts(a) && AltsNumbered(a, 1)
    requires 0 <= starts[0] <= |s| && Reported(First(a, s, starts[0]), starts[0], starts, ends)
    ensures BestNoted(a, s, starts, ends)
  {
    hide First, IsBest, Bounds;
    var t := FirstIsBest(a, s, starts[0]);
    BestInside(a, s, starts[0], ends[0], t);
    assert BoundsOf(t, starts, ends);
  }

  lemma BestInside(a: Alts, s: seq<byte>, i: nat, j: nat, t: Tree)
    requires IsBest(a, s, i, j, t)
    ensures i <= j <= |s|
  {
    AltsTreeMatches(a, s, i, j, t);
  }

  /** Does the pattern match somewhere in the string? And if so, where, first, and with which parts? */
  method Search(exp: seq<byte>, s: seq<byte>) returns (o: Outcome, found: bool, starts: seq<int>, ends: seq<int>)
    requires NulFree(exp) && NulFree(s)
    ensures match Parse(exp)
      case Bad(m) => o == Rejected(m)
      case Parsed(a, _, _) => if 4 + AltsSize(a) >= C.LIMIT then o == Rejected(TooBig) else o.Compiled?
    ensures |starts| == |ends| == NSUBEXP
    ensures o.Compiled? ==>
      && Parse(exp).Parsed?
      && var a, i := Parse(exp).it, starts[0];
      && (found <==> Found(a, s))
      && (found ==>
            && 0 <= i <= ends[0] <= |s| && AltsMatch(a, s, i, ends[0])
            && (forall j: nat :: j < i ==> !MatchesAt(a, s, j))
            && BestNoted(a, s, starts, ends))
  {
    hide First, Parse, BestNoted;
    o := Regcomp(exp);
    found, starts, ends := false, NoBounds(), NoBounds();
    if o.Compiled? {
      ghost var a := Parse(exp).it;
      found := o.re.Regexec(s, a);
      starts, ends := o.re.startp[..], o.re.endp[..];
      if found {
        FirstIsMatch(a, s, starts[0]);
        AltsMove(a, s, starts[0], ends[0]);
        PatternSpelled(exp);
        NoteIs(a, s, starts, ends);
      }
    }
  }
}
