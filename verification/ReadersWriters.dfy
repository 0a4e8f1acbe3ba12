/**
 The readers-writers protocol: any number of reader and writer processes that share a count of
 readers, a one-number mailbox and two semaphores, and take atomic steps in any order.
 */
module ReadersWriters {

  /** Where a reader is: the next thing it does. */
  datatype ReaderAt =
    | WaitM1 | Load1 | Store1 | Test1 | WaitW | PostM1   // entry section
    | Read                                               // the mailbox
    | WaitM2 | Load2 | Store2 | Test2 | PostW | PostM2   // exit section

  datatype WriterAt = WaitToWrite | Write | PostWritten

  /** `reg` is where `rd_count` is incremented and decremented, `number` what was read or is to be written. */
  datatype Proc =
    | Reader(r: ReaderAt, reg: int, number: int)
    | Writer(w: WriterAt, number: int)

  datatype State = State(semM: int, semW: int, rdCount: int, buffer: int, procs: seq<Proc>)

  predicate Initial(s: State) {
    && s.semM == 1 && s.semW == 1 && s.rdCount == 0
    && forall p :: 0 <= p < |s.procs| ==> AtStart(s.procs[p])
  }

  predicate AtStart(x: Proc) {
    match x
    case Reader(r, _, _) => r == WaitM1
    case Writer(w, _) => w == WaitToWrite
  }

  /** A process can step unless it waits for a semaphore that is 0. */
  predicate Enabled(s: State, p: nat)
    requires p < |s.procs|
  {
    match s.procs[p]
    case Reader(r, _, _) => if r == WaitM1 || r == WaitM2 then s.semM > 0 else r == WaitW ==> s.semW > 0
    case Writer(w, _) => w == WaitToWrite ==> s.semW > 0
  }

  /** One step of process `p`; `input` is the number that a writer is to write next. */
  function Step(s: State, p: nat, input: int): State
    requires p < |s.procs|
  {
    var x := s.procs[p];
    match x
    case Writer(w, n) =>
      (match w
       case WaitToWrite => s.(semW := s.semW - 1, procs := s.procs[p := Writer(Write, n)])
       case Write => s.(buffer := n, procs := s.procs[p := Writer(PostWritten, n)])
       case PostWritten => s.(semW := s.semW + 1, procs := s.procs[p := Writer(WaitToWrite, input)]))
    case Reader(r, reg, n) =>
      (match r
       case WaitM1 => s.(semM := s.semM - 1, procs := s.procs[p := Reader(Load1, reg, n)])
       case Load1 => s.(procs := s.procs[p := Reader(Store1, s.rdCount, n)])
       case Store1 => s.(rdCount := reg + 1, procs := s.procs[p := Reader(Test1, reg, n)])
       case Test1 => s.(procs := s.procs[p := Reader(if s.rdCount == 1 then WaitW else PostM1, reg, n)])
       case WaitW => s.(semW := s.semW - 1, procs := s.procs[p := Reader(PostM1, reg, n)])
       case PostM1 => s.(semM := s.semM + 1, procs := s.procs[p := Reader(Read, reg, n)])
       case Read => s.(procs := s.procs[p := Reader(WaitM2, reg, s.buffer)])
       case WaitM2 => s.(semM := s.semM - 1, procs := s.procs[p := Reader(Load2, reg, n)])
       case Load2 => s.(procs := s.procs[p := Reader(Store2, s.rdCount, n)])
       case Store2 => s.(rdCount := reg - 1, procs := s.procs[p := Reader(Test2, reg, n)])
       case Test2 => s.(procs := s.procs[p := Reader(if s.rdCount == 0 then PostW else PostM2, reg, n)])
       case PostW => s.(semW := s.semW + 1, procs := s.procs[p := Reader(PostM2, reg, n)])
       case PostM2 => s.(semM := s.semM + 1, procs := s.procs[p := Reader(WaitM1, reg, n)]))
  }

  // ----- Counting processes -----

  function Count(procs: seq<Proc>, f: Proc -> bool): nat {
    if procs == [] then 0 else (if f(procs[0]) then 1 else 0) + Count(procs[1..], f)
  }

  lemma {:induction false} CountAfter(procs: seq<Proc>, f: Proc -> bool, p: nat, x: Proc)
    requires p < |procs|
    ensures Count(procs[p := x], f) + (if f(procs[p]) then 1 else 0) == Count(procs, f) + if f(x) then 1 else 0
  {
    if p > 0 {
      CountAfter(procs[1..], f, p - 1, x);
      assert procs[p := x][1..] == procs[1..][p - 1 := x];
    } else {
      assert procs[p := x][1..] == procs[1..];
    }
  }

  lemma {:induction false} CountOne(procs: seq<Proc>, f: Proc -> bool, p: nat)
    requires p < |procs| && f(procs[p])
    ensures Count(procs, f) >= 1
    ensures forall q :: 0 <= q < |procs| && q != p && f(procs[q]) ==> Count(procs, f) >= 2
  {
    if p > 0 {
      CountOne(procs[1..], f, p - 1);
    }
    forall q | 0 <= q < |procs| && q != p && f(procs[q])
      ensures Count(procs, f) >= 2
    {
      if p == 0 {
        CountSome(procs[1..], f, q - 1);
      } else if q > 0 {
        assert procs[1..][q - 1] == procs[q];
      }
    }
  }

  lemma {:induction false} CountSome(procs: seq<Proc>, f: Proc -> bool, p: nat)
    requires p < |procs| && f(procs[p])
    ensures Count(procs, f) >= 1
  {
    if p > 0 { CountSome(procs[1..], f, p - 1); }
  }

  lemma {:induction false} CountNone(procs: seq<Proc>, f: Proc -> bool)
    requires Count(procs, f) == 0
    ensures forall p :: 0 <= p < |procs| ==> !f(procs[p])
  {
    forall p | 0 <= p < |procs|
      ensures !f(procs[p])
    {
      if f(procs[p]) { CountSome(procs, f, p); }
    }
  }

  lemma {:induction false} CountZero(procs: seq<Proc>, f: Proc -> bool)
    requires forall p :: 0 <= p < |procs| ==> !f(procs[p])
    ensures Count(procs, f) == 0
  {
    if procs != [] { CountZero(procs[1..], f); }
  }

  /** Between the waits for the mutex and its posts. */
  predicate HasMutex(x: Proc) {
    x.Reader? && x.r !in {WaitM1, Read, WaitM2}
  }

  /** A reader that has been counted in `rd_count`. */
  predicate IsCounted(x: Proc) {
    x.Reader? && x.r in {Test1, WaitW, PostM1, Read, WaitM2, Load2, Store2}
  }

  /** A reader in its section: it may read, or has just read, the mailbox. */
  predicate IsReading(x: Proc) {
    x.Reader? && x.r in {Read, WaitM2}
  }

  predicate IsWriting(x: Proc) {
    x.Writer? && x.w != WaitToWrite
  }

  predicate IsAt(x: Proc, r: ReaderAt) {
    x.Reader? && x.r == r
  }

  /** Is some reader there? */
  predicate Someone(procs: seq<Proc>, r: ReaderAt) {
    exists p :: 0 <= p < |procs| && IsAt(procs[p], r)
  }

  /**
   Do the readers hold the write semaphore? They do while some are counted, but the first has yet to
   wait for it and the last has yet to post it.
   */
  predicate ReadersHold(s: State) {
    if Someone(s.procs, WaitW) || (Someone(s.procs, Test1) && s.rdCount == 1) then false
    else s.rdCount > 0 || Someone(s.procs, PostW) || Someone(s.procs, Test2)
  }

  predicate RegisterOk(x: Proc, rdCount: int) {
    x.Reader? ==>
      && (x.r in {Store1, Store2} ==> x.reg == rdCount)
      && (x.r == WaitW ==> rdCount == 1)
      && (x.r == PostW ==> rdCount == 0)
  }

  /** What every step keeps. */
  ghost predicate Inv(s: State) {
    && s.semM >= 0 && s.semW >= 0
    && s.semM + Count(s.procs, HasMutex) == 1
    && s.rdCount == Count(s.procs, IsCounted)
    && s.semW + Count(s.procs, IsWriting) + (if ReadersHold(s) then 1 else 0) == 1
    && forall p :: 0 <= p < |s.procs| ==> RegisterOk(s.procs[p], s.rdCount)
  }

  /** Nobody but `p` has the mutex. */
  ghost predicate OnlyOne(procs: seq<Proc>, p: nat) {
    forall q :: 0 <= q < |procs| && q != p ==> !HasMutex(procs[q])
  }

  lemma MutexUnique(s: State, p: nat)
    requires Inv(s) && p < |s.procs| && (HasMutex(s.procs[p]) || s.semM > 0)
    ensures OnlyOne(s.procs, p)
  {
    if HasMutex(s.procs[p]) {
      CountOne(s.procs, HasMutex, p);
    } else {
      CountNone(s.procs, HasMutex);
    }
  }

  /** With the mutex unique, who is where in the guarded sections depends on `p` alone. */
  lemma SomeoneIs(procs: seq<Proc>, p: nat, x: Proc, r: ReaderAt)
    requires p < |procs| && OnlyOne(procs, p) && r !in {WaitM1, Read, WaitM2}
    ensures Someone(procs, r) <==> IsAt(procs[p], r)
    ensures Someone(procs[p := x], r) <==> IsAt(x, r)
  {
    assert procs[p := x][p] == x;
  }

  /** A step of the process that has, or takes, the mutex. */
  lemma GuardedStep(s: State, p: nat, input: int)
    requires Inv(s) && p < |s.procs| && Enabled(s, p)
    requires s.procs[p].Reader? && s.procs[p].r != Read
    ensures Inv(Step(s, p, input))
  {
    hide Count, Someone;
    var t := Step(s, p, input);
    MutexUnique(s, p);
    var x := t.procs[p];
    CountAfter(s.procs, HasMutex, p, x);
    CountAfter(s.procs, IsCounted, p, x);
    CountAfter(s.procs, IsWriting, p, x);
    SomeoneIs(s.procs, p, x, WaitW);
    SomeoneIs(s.procs, p, x, Test1);
    SomeoneIs(s.procs, p, x, PostW);
    SomeoneIs(s.procs, p, x, Test2);
    assert t.procs == s.procs[p := x];
    if IsCounted(s.procs[p]) { CountSome(s.procs, IsCounted, p); }
  }

  /** A step away from the mutex. */
  lemma FreeStep(s: State, p: nat, input: int)
    requires Inv(s) && p < |s.procs| && Enabled(s, p)
    requires s.procs[p].Writer? || s.procs[p].r == Read
    ensures Inv(Step(s, p, input))
  {
    hide Count;
    var t := Step(s, p, input);
    var x := t.procs[p];
    assert t.procs == s.procs[p := x];
    CountAfter(s.procs, HasMutex, p, x);
    CountAfter(s.procs, IsCounted, p, x);
    CountAfter(s.procs, IsWriting, p, x);
    forall r | r !in {WaitM1, Read, WaitM2}
      ensures Someone(t.procs, r) <==> Someone(s.procs, r)
    {
      if Someone(s.procs, r) {
        var q :| 0 <= q < |s.procs| && IsAt(s.procs[q], r);
        assert IsAt(t.procs[q], r);
      }
    }
  }

  lemma InitialInv(s: State)
    requires Initial(s)
    ensures Inv(s)
  {
    CountZero(s.procs, HasMutex);
    CountZero(s.procs, IsCounted);
    CountZero(s.procs, IsWriting);
  }

  // ----- Runs -----

  /** Process `schedule[i]` takes the `i`-th step of a run from `s`. */
  predicate CanRun(s: State, schedule: seq<(nat, int)>)
    decreases |schedule|
  {
    schedule == [] ||
    (var (p, input) := schedule[0];
     p < |s.procs| && Enabled(s, p) && CanRun(Step(s, p, input), schedule[1..]))
  }

  function Run(s: State, schedule: seq<(nat, int)>): State
    requires CanRun(s, schedule)
    decreases |schedule|
  {
    if schedule == [] then s
    else Run(Step(s, schedule[0].0, schedule[0].1), schedule[1..])
  }

  /** The invariant holds at the end of every run, however the steps are interleaved. */
  lemma {:induction false} AlwaysInv(s: State, schedule: seq<(nat, int)>)
    requires Inv(s) && CanRun(s, schedule)
    ensures Inv(Run(s, schedule))
    decreases |schedule|
  {
    hide Inv;
    if schedule != [] {
      var (p, input) := schedule[0];
      if s.procs[p].Reader? && s.procs[p].r != Read { GuardedStep(s, p, input); } else { FreeStep(s, p, input); }
      AlwaysInv(Step(s, p, input), schedule[1..]);
    }
  }

  /**
   After every run from the initial state: a process that writes excludes every reader in its section and
   every other writer; and while the mutex is free the count is the number of readers in their sections,
   who hold the write semaphore exactly if it is positive.
   */
  lemma Exclusion(s0: State, schedule: seq<(nat, int)>)
    requires Initial(s0) && CanRun(s0, schedule)
    ensures var s := Run(s0, schedule);
      && (forall p, q :: 0 <= p < |s.procs| && 0 <= q < |s.procs| && p != q && IsWriting(s.procs[p]) ==>
            !IsWriting(s.procs[q]) && !IsReading(s.procs[q]))
      && (s.semM == 1 ==>
            && s.rdCount == Count(s.procs, IsReading)
            && s.semW == 1 - Count(s.procs, IsWriting) - if s.rdCount > 0 then 1 else 0)
  {
    hide Count;
    InitialInv(s0);
    AlwaysInv(s0, schedule);
    var s := Run(s0, schedule);
    forall p, q | 0 <= p < |s.procs| && 0 <= q < |s.procs| && p != q && IsWriting(s.procs[p])
      ensures !IsWriting(s.procs[q]) && !IsReading(s.procs[q])
    {
      CountOne(s.procs, IsWriting, p);
      if IsReading(s.procs[q]) { ReadingHolds(s, q); }
    }
    if s.semM == 1 {
      CountNone(s.procs, HasMutex);
      SameCount(s.procs, IsCounted, IsReading);
    }
  }

  lemma {:induction false} SameCount(procs: seq<Proc>, f: Proc -> bool, g: Proc -> bool)
    requires forall p :: 0 <= p < |procs| ==> f(procs[p]) == g(procs[p])
    ensures Count(procs, f) == Count(procs, g)
  {
    if procs != [] { SameCount(procs[1..], f, g); }
  }

  /** A reader in its section means that the readers hold the write semaphore. */
  lemma ReadingHolds(s: State, q: nat)
    requires Inv(s) && q < |s.procs| && IsReading(s.procs[q])
    ensures ReadersHold(s)
  {
    hide Count;
    CountOne(s.procs, IsCounted, q);
    assert s.rdCount == 1 ==> forall p :: 0 <= p < |s.procs| && p != q ==> !IsCounted(s.procs[p]);
    assert forall p :: 0 <= p < |s.procs| && IsAt(s.procs[p], WaitW) ==> s.rdCount == 1;
    assert forall p, r :: 0 <= p < |s.procs| && IsAt(s.procs[p], r) && r in {WaitW, Test1} ==> IsCounted(s.procs[p]);
  }

  /** While a reader is in its section no step changes the mailbox. */
  lemma MailboxIsStable(s0: State, schedule: seq<(nat, int)>, q: nat, p: nat, input: int)
    requires Initial(s0) && CanRun(s0, schedule)
    requires var s := Run(s0, schedule);
      q < |s.procs| && IsReading(s.procs[q]) && p < |s.procs| && Enabled(s, p)
    ensures var s := Run(s0, schedule); Step(s, p, input).buffer == s.buffer
  {
    hide Run, CanRun;
    var s := Run(s0, schedule);
    Exclusion(s0, schedule);
  }

  // ----- What comes to the mailbox, and from it -----

  /** How many of the first `n` steps process `p` takes. */
  function StepsOf(schedule: seq<(nat, int)>, p: nat, n: nat): nat
    requires n <= |schedule|
  {
    if n == 0 then 0 else StepsOf(schedule, p, n - 1) + if schedule[n - 1].0 == p then 1 else 0
  }

  /** The number that writer `w` is to write after `n` steps: what it was given at the end of its last round. */
  function Given(s: State, schedule: seq<(nat, int)>, w: nat, n: nat): int
    requires n <= |schedule| && w < |s.procs|
  {
    if n == 0 then s.procs[w].number
    else if schedule[n - 1].0 == w && StepsOf(schedule, w, n - 1) % 3 == 2 then schedule[n - 1].1
    else Given(s, schedule, w, n - 1)
  }

  /** A writer's rounds have three steps: waiting for its turn, writing, and giving the turn back. */
  predicate WritesAt(s: State, schedule: seq<(nat, int)>, k: nat)
    requires k < |schedule|
  {
    var w := schedule[k].0;
    w < |s.procs| && s.procs[w].Writer? && StepsOf(schedule, w, k) % 3 == 1
  }

  /** The mailbox after `n` steps: what was written last, or what was there at the beginning. */
  function Mailbox(s: State, schedule: seq<(nat, int)>, n: nat): int
    requires n <= |schedule|
  {
    if n == 0 then s.buffer
    else if WritesAt(s, schedule, n - 1) then Given(s, schedule, schedule[n - 1].0, n - 1)
    else Mailbox(s, schedule, n - 1)
  }

  /** Where a writer is follows from the number of its steps, and what it is to write from what it was given. */
  predicate WriterAfter(s: State, t: State, schedule: seq<(nat, int)>, w: nat)
    requires w < |s.procs| == |t.procs|
  {
    s.procs[w].Writer? ==>
      var c := StepsOf(schedule, w, |schedule|) % 3;
      && t.procs[w] == Writer(if c == 0 then WaitToWrite else if c == 1 then Write else PostWritten,
                              Given(s, schedule, w, |schedule|))
  }

  lemma {:induction false} CanRunOn(s: State, a: seq<(nat, int)>, p: nat, input: int)
    requires CanRun(s, a + [(p, input)])
    ensures CanRun(s, a) && p < |Run(s, a).procs| && Enabled(Run(s, a), p)
    ensures Run(s, a + [(p, input)]) == Step(Run(s, a), p, input)
    decreases |a|
  {
    var b := a + [(p, input)];
    if a == [] {
      assert b == [(p, input)];
    } else {
      assert b[1..] == a[1..] + [(p, input)];
      CanRunOn(Step(s, a[0].0, a[0].1), a[1..], p, input);
    }
  }

  lemma {:induction false} SameBefore(s: State, a: seq<(nat, int)>, b: seq<(nat, int)>, w: nat, n: nat)
    requires n <= |a| && a <= b
    ensures StepsOf(b, w, n) == StepsOf(a, w, n)
    ensures w < |s.procs| ==> Given(s, b, w, n) == Given(s, a, w, n)
  {
    if n > 0 { SameBefore(s, a, b, w, n - 1); }
  }

  lemma {:induction false} SameMailbox(s: State, a: seq<(nat, int)>, b: seq<(nat, int)>, n: nat)
    requires n <= |a| && a <= b
    ensures Mailbox(s, b, n) == Mailbox(s, a, n)
  {
    if n > 0 {
      SameMailbox(s, a, b, n - 1);
      SameBefore(s, a, b, a[n - 1].0, n - 1);
    }
  }

  lemma {:induction false} MailboxAfter(s: State, schedule: seq<(nat, int)>)
    requires Initial(s) && CanRun(s, schedule)
    ensures var t := Run(s, schedule);
      && |t.procs| == |s.procs| && t.buffer == Mailbox(s, schedule, |schedule|)
      && forall w :: 0 <= w < |s.procs| ==>
           (t.procs[w].Reader? <==> s.procs[w].Reader?) && WriterAfter(s, t, schedule, w)
    decreases |schedule|
  {
    if schedule != [] {
      var n := |schedule| - 1;
      var a := schedule[..n];
      var (p, input) := schedule[n];
      assert schedule == a + [(p, input)];
      CanRunOn(s, a, p, input);
      MailboxAfter(s, a);
      SameMailbox(s, a, schedule, n);
      SameBefore(s, a, schedule, p, n);
      OneStepMore(s, Run(s, a), a, p, input);
    }
  }

  lemma OneStepMore(s: State, t: State, a: seq<(nat, int)>, p: nat, input: int)
    requires |t.procs| == |s.procs| && p < |s.procs|
    requires forall w :: 0 <= w < |s.procs| ==> (t.procs[w].Reader? <==> s.procs[w].Reader?) && WriterAfter(s, t, a, w)
    ensures var u, b := Step(t, p, input), a + [(p, input)];
      |u.procs| == |s.procs| && forall w :: 0 <= w < |s.procs| ==>
        (u.procs[w].Reader? <==> s.procs[w].Reader?) && WriterAfter(s, u, b, w)
  {
    var u, b := Step(t, p, input), a + [(p, input)];
    forall w | 0 <= w < |s.procs|
      ensures (u.procs[w].Reader? <==> s.procs[w].Reader?) && WriterAfter(s, u, b, w)
    {
      SameBefore(s, a, b, w, |a|);
      assert WriterAfter(s, t, a, w);
    }
  }

  /**
   After every run the mailbox holds the number that was written last; a writer writes what it was given at
   the end of its round before; and what a reader takes from the mailbox is what was written last.
   */
  lemma WhatIsReadWasWritten(s: State, schedule: seq<(nat, int)>, r: nat, input: int)
    requires Initial(s) && CanRun(s, schedule)
    ensures Run(s, schedule).buffer == Mailbox(s, schedule, |schedule|)
    ensures |Run(s, schedule).procs| == |s.procs|
    ensures r < |s.procs| && IsAt(Run(s, schedule).procs[r], Read) ==>
      Step(Run(s, schedule), r, input).procs[r].number == Mailbox(s, schedule, |schedule|)
  {
    MailboxAfter(s, schedule);
  }

  /** A reader keeps what it has read until it reads again. */
  lemma OnlyReadingReceives(s: State, p: nat, input: int, r: nat)
    requires p < |s.procs| && r < |s.procs| && s.procs[r].Reader? && !(p == r && IsAt(s.procs[r], Read))
    ensures Step(s, p, input).procs[r].Reader? && Step(s, p, input).procs[r].number == s.procs[r].number
  {
  }

  /** No deadlock: after every run some process can step. */
  lemma SomeoneCanStep(s0: State, schedule: seq<(nat, int)>) returns (p: nat)
    requires Initial(s0) && CanRun(s0, schedule) && Run(s0, schedule).procs != []
    ensures var s := Run(s0, schedule); p < |s.procs| && Enabled(s, p)
  {
    hide Count;
    InitialInv(s0);
    AlwaysInv(s0, schedule);
    var s := Run(s0, schedule);
    if h :| 0 <= h < |s.procs| && HasMutex(s.procs[h]) {
      p := h;
      if !Enabled(s, h) {
        CountOne(s.procs, HasMutex, h);
        assert IsAt(s.procs[h], WaitW);
        p := WriterInside(s);
      }
    } else {
      CountZero(s.procs, HasMutex);
      p := 0;
      if !Enabled(s, 0) {
        if r :| 0 <= r < |s.procs| && s.procs[r].Reader? {
          p := r;
        } else {
          CountZero(s.procs, IsCounted);
          p := WriterInside(s);
        }
      }
    }
  }

  /** If the write semaphore is 0 and the readers do not hold it, a writer does. */
  lemma WriterInside(s: State) returns (p: nat)
    requires Inv(s) && s.semW == 0 && !ReadersHold(s)
    ensures p < |s.procs| && IsWriting(s.procs[p])
  {
    hide Count, ReadersHold;
    if q :| 0 <= q < |s.procs| && IsWriting(s.procs[q]) {
      p := q;
    } else {
      CountZero(s.procs, IsWriting);
      assert false;
    }
  }

  // ----- Two readers can keep a writer out for ever, one cannot -----

  /** A run in no state of which process `w` can step. */
  predicate KeepsOut(s: State, schedule: seq<(nat, int)>, w: nat)
    requires w < |s.procs|
    decreases |schedule|
  {
    !Enabled(s, w) &&
    (schedule == [] ||
     (var (p, input) := schedule[0];
      p < |s.procs| && Enabled(s, p) && KeepsOut(Step(s, p, input), schedule[1..], w)))
  }

  lemma {:induction false} KeepsOutOn(s: State, a: seq<(nat, int)>, b: seq<(nat, int)>, w: nat)
    requires w < |s.procs| && CanRun(s, a) && KeepsOut(s, a, w)
    requires |Run(s, a).procs| == |s.procs| && KeepsOut(Run(s, a), b, w)
    ensures KeepsOut(s, a + b, w)
    ensures CanRun(Run(s, a), b) ==> CanRun(s, a + b) && Run(s, a + b) == Run(Run(s, a), b)
    decreases |a|
  {
    if a == [] {
      assert a + b == b;
    } else {
      var t := Step(s, a[0].0, a[0].1);
      assert (a + b)[1..] == a[1..] + b;
      KeepsOutOn(t, a[1..], b, w);
    }
  }

  /** A writer waits, reader `a` is in its section, and reader `b` has left. */
  predicate Waiting(s: State, a: nat, b: nat, w: nat) {
    && a < |s.procs| && b < |s.procs| && w < |s.procs| && a != b
    && s.semM == 1 && s.semW == 0 && s.rdCount == 1
    && IsAt(s.procs[a], Read) && IsAt(s.procs[b], WaitM1) && s.procs[w] == Writer(WaitToWrite, s.procs[w].number)
  }

  /** Reader `b` comes in beside one that is in its section. */
  lemma Enters(s: State, b: nat, w: nat) returns (t: State)
    requires b < |s.procs| && w < |s.procs| && s.semM == 1 && s.semW == 0 && s.rdCount == 1
    requires IsAt(s.procs[b], WaitM1) && s.procs[w] == Writer(WaitToWrite, s.procs[w].number)
    ensures t == s.(rdCount := 2, procs := s.procs[b := Reader(Read, 1, s.procs[b].number)])
    ensures var e := [(b, 0), (b, 0), (b, 0), (b, 0), (b, 0)]; CanRun(s, e) && t == Run(s, e) && KeepsOut(s, e, w)
  {
    var n := s.procs[b].number;
    var s1 := Step(s, b, 0);
    var s2 := Step(s1, b, 0);
    var s3 := Step(s2, b, 0);
    var s4 := Step(s3, b, 0);
    t := Step(s4, b, 0);
    assert s4.procs == s.procs[b := Reader(PostM1, 1, n)];
    assert t.procs == s.procs[b := Reader(Read, 1, n)];
    OneMore(s4, b, [], w);
    OneMore(s3, b, [(b, 0)], w);
    OneMore(s2, b, [(b, 0), (b, 0)], w);
    OneMore(s1, b, [(b, 0), (b, 0), (b, 0)], w);
    OneMore(s, b, [(b, 0), (b, 0), (b, 0), (b, 0)], w);
  }

  lemma OneMore(s: State, p: nat, rest: seq<(nat, int)>, w: nat)
    requires p < |s.procs| && w < |s.procs| && Enabled(s, p) && !Enabled(s, w)
    requires w < |Step(s, p, 0).procs| && CanRun(Step(s, p, 0), rest) && KeepsOut(Step(s, p, 0), rest, w)
    ensures CanRun(s, [(p, 0)] + rest) && KeepsOut(s, [(p, 0)] + rest, w)
    ensures Run(s, [(p, 0)] + rest) == Run(Step(s, p, 0), rest)
  {
    assert ([(p, 0)] + rest)[1..] == rest;
  }

  /** Reader `a` leaves while another stays. */
  lemma Leaves(s: State, a: nat, w: nat) returns (t: State)
    requires a < |s.procs| && w < |s.procs| && s.semM == 1 && s.semW == 0 && s.rdCount == 2
    requires IsAt(s.procs[a], Read) && s.procs[w] == Writer(WaitToWrite, s.procs[w].number)
    ensures t == s.(rdCount := 1, procs := s.procs[a := Reader(WaitM1, 2, s.buffer)])
    ensures var l := [(a, 0), (a, 0), (a, 0), (a, 0), (a, 0), (a, 0)]; CanRun(s, l) && t == Run(s, l) && KeepsOut(s, l, w)
  {
    var n := s.buffer;
    var s1 := Step(s, a, 0);
    var s2 := Step(s1, a, 0);
    var s3 := Step(s2, a, 0);
    var s4 := Step(s3, a, 0);
    var s5 := Step(s4, a, 0);
    t := Step(s5, a, 0);
    assert s5.procs == s.procs[a := Reader(PostM2, 2, n)];
    assert t.procs == s.procs[a := Reader(WaitM1, 2, n)];
    OneMore(s5, a, [], w);
    OneMore(s4, a, [(a, 0)], w);
    OneMore(s3, a, [(a, 0), (a, 0)], w);
    OneMore(s2, a, [(a, 0), (a, 0), (a, 0)], w);
    OneMore(s1, a, [(a, 0), (a, 0), (a, 0), (a, 0)], w);
    OneMore(s, a, [(a, 0), (a, 0), (a, 0), (a, 0), (a, 0)], w);
  }

  /** The steps in which reader `b` enters and reader `a` leaves. */
  function Turn(a: nat, b: nat): seq<(nat, int)> {
    [(b, 0), (b, 0), (b, 0), (b, 0), (b, 0)] + [(a, 0), (a, 0), (a, 0), (a, 0), (a, 0), (a, 0)]
  }

  lemma TakeTurns(s: State, a: nat, b: nat, w: nat) returns (t: State)
    requires Waiting(s, a, b, w)
    ensures CanRun(s, Turn(a, b)) && t == Run(s, Turn(a, b)) && KeepsOut(s, Turn(a, b), w) && Waiting(t, b, a, w)
    ensures |t.procs| == |s.procs|
  {
    hide CanRun, Run, KeepsOut;
    var e, l := [(b, 0), (b, 0), (b, 0), (b, 0), (b, 0)], [(a, 0), (a, 0), (a, 0), (a, 0), (a, 0), (a, 0)];
    var t1 := Enters(s, b, w);
    t := Leaves(t1, a, w);
    KeepsOutOn(s, e, l, w);
  }

  function Turns(a: nat, b: nat, n: nat): (r: seq<(nat, int)>)
    ensures |r| == 11 * n
    decreases n
  {
    if n == 0 then [] else Turn(a, b) + Turns(b, a, n - 1)
  }

  lemma {:induction false} TakeManyTurns(s: State, a: nat, b: nat, w: nat, n: nat)
    requires Waiting(s, a, b, w)
    ensures CanRun(s, Turns(a, b, n)) && KeepsOut(s, Turns(a, b, n), w)
    decreases n
  {
    hide Waiting, Turn;
    WaitingOut(s, a, b, w);
    if n > 0 {
      var t := TakeTurns(s, a, b, w);
      TakeManyTurns(t, b, a, w, n - 1);
      KeepsOutOn(s, Turn(a, b), Turns(b, a, n - 1), w);
    }
  }

  lemma WaitingOut(s: State, a: nat, b: nat, w: nat)
    requires Waiting(s, a, b, w)
    ensures w < |s.procs| && !Enabled(s, w)
  {
  }

  /** What is true of a run that goes on for ever: `schedule(i)` says who takes its `i`-th step. */
  type Endless = nat -> (nat, int)

  function Begin(schedule: Endless, n: nat): seq<(nat, int)> {
    seq(n, schedule)
  }

  /** In no state of the endless run can `w` step. */
  ghost predicate KeepsOutForEver(s: State, schedule: Endless, w: nat) {
    w < |s.procs| && forall n: nat :: KeepsOut(s, Begin(schedule, n), w)
  }

  function TurnsForEver(a: nat, b: nat): Endless {
    (i: nat) => Turns(a, b, i + 1)[i]
  }

  lemma {:induction false} MoreTurns(a: nat, b: nat, n: nat, m: nat)
    requires n <= m
    ensures Turns(a, b, n) <= Turns(a, b, m)
    decreases n
  {
    hide Turn;
    if n > 0 { MoreTurns(b, a, n - 1, m - 1); }
  }

  lemma BeginOfTurns(a: nat, b: nat, n: nat)
    ensures Begin(TurnsForEver(a, b), n) == Turns(a, b, n)[..n]
  {
    forall i: nat | i < n
      ensures Begin(TurnsForEver(a, b), n)[i] == Turns(a, b, n)[i]
    {
      MoreTurns(a, b, i + 1, n);
    }
  }

  lemma {:induction false} KeepsOutBefore(s: State, schedule: seq<(nat, int)>, n: nat, w: nat)
    requires w < |s.procs| && KeepsOut(s, schedule, w) && n <= |schedule|
    ensures KeepsOut(s, schedule[..n], w)
    decreases |schedule|
  {
    if n > 0 {
      assert schedule[..n][1..] == schedule[1..][..n - 1];
      KeepsOutBefore(Step(s, schedule[0].0, schedule[0].1), schedule[1..], n - 1, w);
    }
  }

  /**
   Nothing protects the writers: with two readers, a run can reach a state from which a waiting writer is
   kept out for ever.
   */
  lemma WriterCanStarve(s: State, a: nat, b: nat, w: nat) returns (start: seq<(nat, int)>)
    requires Initial(s) && a < |s.procs| && b < |s.procs| && w < |s.procs| && a != b
    requires s.procs[a].Reader? && s.procs[b].Reader? && s.procs[w].Writer?
    ensures CanRun(s, start) && KeepsOutForEver(Run(s, start), TurnsForEver(a, b), w)
  {
    start := [(a, 0), (a, 0), (a, 0), (a, 0), (a, 0), (a, 0)];
    var t := FirstEnters(s, a);
    forall n: nat
      ensures KeepsOut(t, Begin(TurnsForEver(a, b), n), w)
    {
      TakeManyTurns(t, a, b, w, n);
      BeginOfTurns(a, b, n);
      KeepsOutBefore(t, Turns(a, b, n), n, w);
    }
  }

  lemma FirstEnters(s: State, a: nat) returns (t: State)
    requires a < |s.procs| && s.semM == 1 && s.semW == 1 && s.rdCount == 0 && IsAt(s.procs[a], WaitM1)
    ensures t == s.(semW := 0, rdCount := 1, procs := s.procs[a := Reader(Read, 0, s.procs[a].number)])
    ensures var e := [(a, 0), (a, 0), (a, 0), (a, 0), (a, 0), (a, 0)]; CanRun(s, e) && t == Run(s, e)
  {
    var n := s.procs[a].number;
    var s1 := Step(s, a, 0);
    var s2 := Step(s1, a, 0);
    var s3 := Step(s2, a, 0);
    var s4 := Step(s3, a, 0);
    var s5 := Step(s4, a, 0);
    t := Step(s5, a, 0);
    assert s5.procs == s.procs[a := Reader(PostM1, 0, n)];
    assert t.procs == s.procs[a := Reader(Read, 0, n)];
    assert CanRun(t, []) && Run(t, []) == t;
    StepOnce(s5, a, []);
    StepOnce(s4, a, [(a, 0)]);
    StepOnce(s3, a, [(a, 0), (a, 0)]);
    StepOnce(s2, a, [(a, 0), (a, 0), (a, 0)]);
    StepOnce(s1, a, [(a, 0), (a, 0), (a, 0), (a, 0)]);
    StepOnce(s, a, [(a, 0), (a, 0), (a, 0), (a, 0), (a, 0)]);
  }

  lemma StepOnce(s: State, p: nat, rest: seq<(nat, int)>)
    requires p < |s.procs| && Enabled(s, p) && CanRun(Step(s, p, 0), rest)
    ensures CanRun(s, [(p, 0)] + rest) && Run(s, [(p, 0)] + rest) == Run(Step(s, p, 0), rest)
  {
    assert ([(p, 0)] + rest)[1..] == rest;
  }

  // ----- One reader cannot -----

  predicate IsReader(x: Proc) {
    x.Reader?
  }

  predicate IsAtWrite(x: Proc) {
    x.Writer? && x.w == Write
  }


  /** Steps that a lone reader can take before it needs the write semaphore or gives it back. */
  function ReaderLeft(r: ReaderAt): nat {
    match r
    case PostM2 => 5
    case WaitM1 => 4
    case Load1 => 3
    case Store1 => 2
    case Test1 => 1
    case WaitW => 0
    case PostM1 => 6
    case Read => 5
    case WaitM2 => 4
    case Load2 => 3
    case Store2 => 2
    case Test2 => 1
    case PostW => 0
  }

  /** Steps that all can take while the write semaphore stays 0; `r` is where the reader is, if there is one. */
  function StepsLeft(s: State, r: nat): nat {
    (if r < |s.procs| && s.procs[r].Reader? then ReaderLeft(s.procs[r].r) else 0) + Count(s.procs, IsAtWrite)
  }

  /** `r` is the only place where a reader can be. */
  predicate OnlyReader(procs: seq<Proc>, r: nat) {
    forall p :: 0 <= p < |procs| && procs[p].Reader? ==> p == r
  }

  lemma CountedAlone(s: State, r: nat)
    requires Inv(s) && OnlyReader(s.procs, r)
    ensures s.rdCount == if r < |s.procs| && IsCounted(s.procs[r]) then 1 else 0
  {
    hide Count;
    if r < |s.procs| && IsCounted(s.procs[r]) {
      var x := Reader(WaitM1, 0, 0);
      CountAfter(s.procs, IsCounted, r, x);
      CountZero(s.procs[r := x], IsCounted);
    } else {
      CountZero(s.procs, IsCounted);
    }
  }

  /** As long as the write semaphore stays 0 every step brings the next use of it nearer. */
  lemma StepsRunOut(s: State, p: nat, input: int, r: nat)
    requires Inv(s) && OnlyReader(s.procs, r) && p < |s.procs| && Enabled(s, p)
    requires s.semW == 0 && Step(s, p, input).semW == 0
    ensures OnlyReader(Step(s, p, input).procs, r)
    ensures StepsLeft(Step(s, p, input), r) + 1 == StepsLeft(s, r)
  {
    hide Count, Inv;
    CountedAlone(s, r);
    var t := Step(s, p, input);
    assert t.procs == s.procs[p := t.procs[p]];
    CountAfter(s.procs, IsAtWrite, p, t.procs[p]);
  }

  lemma SixAtMost(s: State, r: nat)
    requires Inv(s) && OnlyReader(s.procs, r) && s.semW == 0
    ensures StepsLeft(s, r) <= 6
  {
    hide Count;
    CountedAlone(s, r);
    WritingToo(s.procs);
    if r < |s.procs| && IsAt(s.procs[r], PostM1) {
      assert forall p, q :: 0 <= p < |s.procs| && IsAt(s.procs[p], q) ==> q == PostM1;
      assert ReadersHold(s);
    }
  }

  lemma {:induction false} WritingToo(procs: seq<Proc>)
    ensures Count(procs, IsAtWrite) <= Count(procs, IsWriting)
  {
    if procs != [] { WritingToo(procs[1..]); }
  }

  lemma {:induction false} OutWhileLeft(s: State, schedule: seq<(nat, int)>, w: nat, r: nat)
    requires Inv(s) && OnlyReader(s.procs, r) && w < |s.procs| && s.procs[w].Writer? && KeepsOut(s, schedule, w)
    ensures |schedule| <= StepsLeft(s, r)
    decreases |schedule|
  {
    hide Inv, Count, StepsLeft;
    if schedule != [] {
      var (p, input) := schedule[0];
      var t := Step(s, p, input);
      AlwaysInv(s, [(p, input)]);
      assert Run(s, [(p, input)]) == t;
      assert p != w && t.procs[w] == s.procs[w];
      Shut(s, schedule, w);
      Shut(t, schedule[1..], w);
      StepsRunOut(s, p, input, r);
      OutWhileLeft(t, schedule[1..], w, r);
    }
  }

  /** A run makes no readers and no writers. */
  lemma {:induction false} KindsStay(s: State, schedule: seq<(nat, int)>)
    requires CanRun(s, schedule)
    ensures var t := Run(s, schedule);
      |t.procs| == |s.procs| && forall p :: 0 <= p < |s.procs| ==> (t.procs[p].Reader? <==> s.procs[p].Reader?)
    decreases |schedule|
  {
    if schedule != [] { KindsStay(Step(s, schedule[0].0, schedule[0].1), schedule[1..]); }
  }

  lemma {:induction false} FindReader(procs: seq<Proc>) returns (a: nat)
    requires Count(procs, IsReader) >= 1
    ensures a < |procs| && procs[a].Reader? && (Count(procs, IsReader) == 1 ==> OnlyReader(procs, a))
  {
    if procs[0].Reader? {
      a := 0;
      if Count(procs, IsReader) == 1 { CountNone(procs[1..], IsReader); }
      assert forall p :: 1 <= p < |procs| ==> procs[p] == procs[1..][p - 1];
    } else {
      a := FindReader(procs[1..]);
      assert forall p :: 1 <= p < |procs| ==> procs[p] == procs[1..][p - 1];
      a := a + 1;
    }
  }

  lemma TwoReaders(procs: seq<Proc>) returns (a: nat, b: nat)
    requires Count(procs, IsReader) >= 2
    ensures a < |procs| && b < |procs| && a != b && procs[a].Reader? && procs[b].Reader?
  {
    a := FindReader(procs);
    var x := Writer(WaitToWrite, 0);
    CountAfter(procs, IsReader, a, x);
    b := FindReader(procs[a := x]);
  }

  /** With one reader or none, after every run a writer is kept out for six steps at most. */
  lemma OutForSixSteps(s0: State, schedule: seq<(nat, int)>, rest: seq<(nat, int)>, w: nat)
    requires Initial(s0) && Count(s0.procs, IsReader) < 2 && w < |s0.procs| && s0.procs[w].Writer?
    requires CanRun(s0, schedule) && w < |Run(s0, schedule).procs| && KeepsOut(Run(s0, schedule), rest, w)
    ensures |rest| <= 6
  {
    hide Count, Inv, StepsLeft, KeepsOut, CanRun, Run;
    InitialInv(s0);
    AlwaysInv(s0, schedule);
    KindsStay(s0, schedule);
    var s := Run(s0, schedule);
    var r := |s.procs|;
    if Count(s0.procs, IsReader) == 1 { r := FindReader(s0.procs); } else { CountNone(s0.procs, IsReader); }
    assert OnlyReader(s.procs, r);
    OutWhileLeft(s, rest, w, r);
    Shut(s, rest, w);
    SixAtMost(s, r);
  }

  lemma Shut(s: State, schedule: seq<(nat, int)>, w: nat)
    requires Inv(s) && w < |s.procs| && s.procs[w].Writer? && KeepsOut(s, schedule, w)
    ensures s.semW == 0
  {
  }

  /** After some run `w` can be kept out for ever. */
  ghost predicate CanStarve(s: State, w: nat) {
    exists start, schedule :: CanRun(s, start) && KeepsOutForEver(Run(s, start), schedule, w)
  }

  /** A writer can be kept out for ever exactly if there are two readers. */
  lemma StarvesIffTwoReaders(s: State, w: nat)
    requires Initial(s) && w < |s.procs| && s.procs[w].Writer?
    ensures CanStarve(s, w) <==> Count(s.procs, IsReader) >= 2
  {
    hide Count, KeepsOut, CanRun, Run;
    if Count(s.procs, IsReader) >= 2 {
      var a, b := TwoReaders(s.procs);
      var start := WriterCanStarve(s, a, b, w);
    } else if CanStarve(s, w) {
      var start, schedule :| CanRun(s, start) && KeepsOutForEver(Run(s, start), schedule, w);
      OutForSixSteps(s, start, Begin(schedule, 7), w);
    }
  }
}
