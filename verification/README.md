# Verified models of a MINIX source tree

The repository holds a MINIX 3 source tree with some of its commands, course programs around it, and
changes to the kernel's scheduler. This project models the parts of it with the most intricate behaviour in
Dafny and proves what they are for. Programs that work by changing state are modelled as methods over
arrays, records and class fields, and proved against functions and predicates whose properties are then
proved as lemmas.

**The LZW codec** (`Bits`, `LzwStream`, `LzwCodes`, `LzwGreedy`, `LzwClear`, `LzwReading`, `LzwBuffer`,
`LzwHash`, `Compress`, `Decompress`, `Zcat`). `compress` as a filter: the open-addressed hash table with
its secondary probe, the packing of codes of changing width into bytes, CLEAR, and the decompressor that
rebuilds the dictionary one entry behind. `LzwStream` and `LzwCodes` say what a code stream is and what
text a list of codes stands for; the compressor is proved to write such a stream and the decompressor to
read it, and to read every other stream whose codes its dictionary admits (`LzwReading`). The result is
`Zcat.RoundTrip`: every input comes back, for every setting. When to clear the table is an argument: the
rule of `cl_block`, which computes the ratio achieved so far, or any other rule, so that the theorem does
not depend on the ratio. `LzwGreedy` and `LzwClear` say which codes those are: but for one pair of code and
byte, named below, a code is put out only when the dictionary has no entry for it and the next byte, so
that it stands for the longest word there is, and CLEAR only when the dictionary is full, the next look is
due and compression gets no better. For an input without two zero bytes in a row these two rules leave a
single list of codes (`LzwClear.OneCodeList`), so they determine what the compressor does.

**Regular expressions** (`RegexSyntax`, `RegexClass`, `RegexSpelling`, `RegexReading`, `RegexErrors`,
`RegexMeaning`, `RegexOrder`, `RegexTrees`, `RegexBest`, `RegexParts`, `RegexCode`, `RegexRun`,
`RegexSafe`, `RegexSearch`, `RegexBuild`, `RegexCompile`, `RegexMatch`, `RegexHints`, `Regex`). The
compiler of `cawf` writes a node program with relative links and moves nodes about as it reads operators;
the matcher runs the program by backtracking. `RegexMeaning` gives expressions a meaning as a relation on
positions. `RegexTrees` says in what ways an expression matches, as trees, which of two ways is preferred
(the earlier alternative, one round more) and what bounds a way gives to the bracketed parts. `RegexOrder`
defines the search for a match in the order of preference, and `RegexBest` proves that it comes to the one
way preferred to all others, with its end and its bounds; `RegexParts` says what these bounds are bounds
of. `RegexSpelling` says without any reading order which texts spell which expressions, and `RegexReading`
that the parser accepts just these texts and that there is one way to read them, and `RegexErrors` that any
other is refused for a fault it has. `RegexCode` says how a program lies in memory, and `RegexSearch` what
running it with backtracking comes to. Proved: the compiler lays down the program of the pattern, in
exactly the bytes its first pass counted; running such a program comes to an end, and to the first match
with its end and all its bounds; the matcher does the same in place; and the hints that let it skip
positions change nothing. `Regex.Search` puts the parts together.

**The kernel** (`Links`, `Ipc`, `IpcSafety`, `IpcRuns`, `IpcMail`, `IpcRights`, `Sched`, `SchedOrder`,
`ProcTable`, `RunQueues`, `Kernel`). Synchronous message passing and the run queues of the third
assignment's kernel. `Ipc` states what each call does to a table of processes; `IpcSafety` and `IpcRuns`
prove what all calls, and so all runs, keep, and when the deadlock walk of a call ends; `IpcMail` what each
call answers and delivers, and that notifications are neither lost nor doubled; `IpcRights` that a process
reaches only those in its send mask. `Sched` does the same for the run queues, and `SchedOrder` proves the
order of service on them: whoever is queued first is picked first. `Kernel` is the program: one array of
process records, run queues and caller queues threaded through it by index, with null as -1, proved to do
what `Ipc` and `Sched` say while both kinds of list stay intact. `RunQueuesOk` is the kernel's own
consistency check, proved exact on tables that may be broken in any way.

**The lottery scheduler** (`Lottery`). The second assignment's kernel counts the tickets on its run queues
and draws by them. The count is proved to stay right under every queue operation, and while it is right,
and only then, each process wins with exactly as many draws as it holds tickets. `ProcessSetPriority` does
not always keep the count right; `DriftIff` says exactly when it does, and `TotalInRuns` by how much it is
off in every state of every run.

**Disk-head scheduling** (`Disk`). The cost of an order of service, and three schedulers as such orders.
Shortest seek time first moves the head at most twice over the range of the start and the requests, so it
is at most twice as costly as any order.

**Readers and writers** (`ReadersWriters`). Any number of readers and writers as processes that take atomic
steps in any order: loads, stores and tests of the shared count, waits and posts. Exclusion, absence of
deadlock, that what is read is what was written last, and that a writer can nevertheless be kept out for
ever, though only by two readers.

**Checksums** (`Crc`, `CrcPoly`). The table-driven checksum is division of polynomials over GF(2); what
errors it cannot miss, and one kind that it cannot see.

**Disk geometry** (`Geometry`, `GeometryGuess`). Sector addresses in three bytes, and the search for the
heads and sectors that agree with all of them.

Run `dafny verify dfyconfig.toml` to check everything.

## What turned out to be false

Each of these is stated as a lemma with the exact condition under which the code does what one expects, and
with an input on which it does not.

- A process that receives from itself, or sends to itself, is blocked on itself, and the deadlock walk does
  not see it (`IpcRuns.CircleIffSelf`). From then on the walk of every other process that comes to it goes
  round for ever (`IpcSafety.WalkEndsIff`, `IpcRuns.ReturnsIff`; an input: `IpcRuns.SelfReceiveHangsSenders`).
- `sched_proc` accepts one priority more than there are queues, with which a runnable process has no place on
  any queues (`Sched.ListsExistIff`, `ProcTable.NoQueueIsWrong`) and is never picked (`Sched.NeverPicked`).
- `sstf` serves nothing at all when the head starts too far away from every request
  (`Disk.ServedIffInReach`; an input: `Disk.OutOfReach`).
- `optimal` sweeps upwards only, which is not always the cheapest order (`Disk.SweepMinimalIff`; an input:
  `Disk.SweepNotMinimal`).
- `ProcessSetPriority` can make the count of tickets drift (`Lottery.DriftIff`), and then the draw is not fair
  (`Lottery.FairIff`; an input: `Lottery.DriftStarves`).
- The geometry that the addresses were written for is ruled out when a partition lies beyond cylinder 1023
  (`GeometryGuess.TruthNotRuledOut`; an input: `GeometryGuess.TruthRuledOut`).
- Different messages can have the same checksum, exactly if the divisor divides their difference
  (`CrcPoly.SameChecksum`; an input: zero bytes in front, `CrcPoly.LeadingZerosUnseen`).
- A writer can be kept out for ever, exactly if there are two readers (`ReadersWriters.StarvesIffTwoReaders`;
  how: `ReadersWriters.WriterCanStarve`). With fewer it is kept out for six steps of the others at most
  (`ReadersWriters.OutForSixSteps`).
- The table of the compressor marks a free slot by -1, but the probe also stops at a key of 0, which is that of
  the pair of code 0 and byte 0. Every other pair that is filed is found again (`Compress.FilingFinds`); this
  one is lost exactly if another pair is filed in its place (`Compress.ZeroKeptIff`; a table in which one is:
  `Compress.ZeroIsLost`). The output is correct all the same, but the longest word may then be missed; never
  so on an input without two zero bytes in a row (`LzwGreedy.LongestIsTaken`).
- The decompressor takes any code. The entry it makes after a code is right exactly if the code named a word
  (`Decompress.EntryFitsIff`; an input with one that does not: `LzwReading.BrokenStream`).

## Model

| member | source | states |
|---|---|---|
| Zcat.RoundTrip | program_assignment_2/src/minix/commands/compress/compress.c:740-1113 | for every byte string, every `-b` argument, block mode or not, and every rule for when to clear, the ratio of the original among them, decompressing what was compressed gives the input back |
| Zcat.CompressInput | program_assignment_2/src/minix/commands/compress/compress.c:429-431 | `-b` is clamped to 9..16; under every rule for when to clear the output is a stream that stands for the input; each code in it was put out because no entry had been filed for it and the next byte (the pair of code 0 and byte 0 excepted), and CLEAR stands exactly where it is due; the exit status says whether the output is longer |
| Zcat.DecompressInput | program_assignment_2/src/minix/commands/compress/compress.c:678-708 | a stream is refused for its magic number or its width; any other, whoever wrote it, is written out as the text of its codes, if each code is at most the next free one and the first, also after CLEAR, is a byte |
| Zcat.HeaderIsRead | program_assignment_2/src/minix/commands/compress/compress.c:686-706 | the settings read from the three header bytes are the ones written there |
| Zcat.StreamDeterminesText | program_assignment_2/src/minix/commands/compress/compress.c:1034-1113 | a stream stands for one text at most, by one list of codes, under one setting |
| LzwClear.OneCodeList | program_assignment_2/src/minix/commands/compress/compress.c:740-862 | for an input without two zero bytes in a row there is one list of codes that stands for it, takes the longest word each time and clears when due: so the compressor is determined |
| LzwGreedy.LongestIsTaken | program_assignment_2/src/minix/commands/compress/compress.c:792-827 | for such an input each code stands for a word of the dictionary, and no longer word of the dictionary stands at that place in the input |
| LzwGreedy.FiledAreWords | program_assignment_2/src/minix/commands/compress/compress.c:822-827 | the dictionary at any time is the initial words and one word for each pair of a code and a following byte filed since the last CLEAR |
| LzwClear.GivesUpIff | program_assignment_2/src/minix/commands/compress/compress.c:1473-1484 | when the ratio is no better, for shifted and rounded quotients, as an inequality between products |
| LzwClear.LooksApart | program_assignment_2/src/minix/commands/compress/compress.c:1464 | the table is looked at again only after 10000 bytes more, or the gap of the rule in force |
| LzwReading.UniqueCodes | program_assignment_2/src/minix/commands/compress/compress.c:1125-1200 | two lists of codes that the same bytes can be read as are equal |
| LzwReading.ReadFrom | program_assignment_2/src/minix/commands/compress/compress.c:1125-1200 | reading any stream at all comes to its end, or to a code that the dictionary built so far does not admit, or to a chunk too short for a code; up to there the codes are admitted and stand in the stream |
| LzwReading.ReadIffCarried | program_assignment_2/src/minix/commands/compress/compress.c:1125-1200 | reading finishes with these codes exactly if they are admitted and the stream carries them and no more |
| LzwReading.WrittenIsRead | program_assignment_2/src/minix/commands/compress/compress.c:1034-1113 | what a compressor writes is read to its end, as the codes it was written with |
| LzwReading.BrokenStream | program_assignment_2/src/minix/commands/compress/compress.c:1071-1075 | an input: a stream of three bytes whose second code is beyond the next free one |
| LzwCodes.ItemsPaced | program_assignment_2/src/minix/commands/compress/compress.c:970-1000 | at every point of a valid list of codes the dictionary and the code width have kept in step |
| LzwCodes.CodeFits | program_assignment_2/src/minix/commands/compress/compress.c:910-956 | every code the compressor emits fits the width of its moment |
| LzwCodes.WidthIsLeast | program_assignment_2/src/minix/commands/compress/compress.c:970-1000 | codes are no wider and no narrower than the number of entries calls for |
| LzwStream.NoCodeAfterEnd | program_assignment_2/src/minix/commands/compress/compress.c:1158-1163 | after the last code no further code can be read, whatever bits are left over |
| LzwStream.FlushKeepsPlaced | program_assignment_2/src/minix/commands/compress/compress.c:958-1017 | codes already written stay readable when a buffer is flushed, partial ones included |
| LzwStream.PlaceNext | program_assignment_2/src/minix/commands/compress/compress.c:921-958 | putting a code into the buffer leaves all codes before it in place |
| LzwStream.AdvanceKeepsOk | program_assignment_2/src/minix/commands/compress/compress.c:958-1000 | the position after a code is again a multiple of the width within a block of eight codes |
| LzwBuffer.Insert | program_assignment_2/src/minix/commands/compress/compress.c:921-956 | the code occupies exactly its bits of the buffer and no earlier bit changes |
| LzwBuffer.Extract | program_assignment_2/src/minix/commands/compress/compress.c:1170-1195 | the bits at an offset are returned as the code |
| LzwBuffer.Inserted | program_assignment_2/src/minix/commands/compress/compress.c:921-956 | bit by bit, what the three partial stores leave in the buffer |
| LzwHash.TableSizeIsPrime | program_assignment_2/src/minix/commands/compress/compress.c:114 | 69001 has no divisor but one and itself |
| LzwHash.StepsDiffer | program_assignment_2/src/minix/commands/compress/compress.c:801-814 | no multiple of a probe step short of the table size comes back to the start |
| LzwHash.SlotsDiffer | program_assignment_2/src/minix/commands/compress/compress.c:801-814 | the probe visits different slots until it has seen them all |
| LzwHash.ProbesBounded | program_assignment_2/src/minix/commands/compress/compress.c:804-814 | the probe meets no more occupied slots than there are codes, so it ends |
| Compress.SearchIsBounded | program_assignment_2/src/minix/commands/compress/compress.c:804-814 | with fewer codes than slots every search comes to a match or a free slot |
| Compress.HitIsSound | program_assignment_2/src/minix/commands/compress/compress.c:795-812 | a hit is the code of exactly that prefix and that character |
| Compress.FilingKeepsOk | program_assignment_2/src/minix/commands/compress/compress.c:822-827 | filing a word keeps every entry sound, even where a key of 0 is overwritten |
| Compress.KeyInjective | program_assignment_2/src/minix/commands/compress/compress.c:792 | different pairs of prefix and character have different keys |
| Compress.Compressor.Probe | program_assignment_2/src/minix/commands/compress/compress.c:792-815 | the probe ends with a sound hit, or at the free slot where its search stops, and then the key stands nowhere on its way |
| Compress.MissedIsNotFound | program_assignment_2/src/minix/commands/compress/compress.c:795-815 | a search that ends without a hit means that the pair cannot be found in the table |
| Compress.FilingFinds | program_assignment_2/src/minix/commands/compress/compress.c:822-827 | after a pair is filed where its search stopped, it and every pair filed before can be found, but for the pair (0, 0) |
| Compress.ZeroKeptIff | program_assignment_2/src/minix/commands/compress/compress.c:813-825 | the pair (0, 0), whose key 0 looks like a free slot, is lost exactly if another is filed in its place |
| Compress.ZeroIsLost | program_assignment_2/src/minix/commands/compress/compress.c:813-825 | a table in which that happens: the search for the pair (34500, 0) stops at the slot that holds the key 0 |
| Compress.RulesNext | program_assignment_2/src/minix/commands/compress/compress.c:792-862 | putting out the code held after a miss keeps both rules, the longest word and the time to clear |
| Compress.Compressor.Output | program_assignment_2/src/minix/commands/compress/compress.c:887-1026 | what has been written and buffered is the layout of the codes so far, with the new one at the end |
| Compress.Compressor.ClHash | program_assignment_2/src/minix/commands/compress/compress.c:1502-1564 | every slot is free |
| Compress.Compressor.ClBlock | program_assignment_2/src/minix/commands/compress/compress.c:1460-1500 | the table is cleared exactly if the rule in force says so, and then CLEAR put out; either way the codes so far, the table and the writer go on standing for what was read, and the next look is due after the gap |
| Compress.Compressor.CompressBytes | program_assignment_2/src/minix/commands/compress/compress.c:740-862 | the codes emitted stand for the input, the bytes are their stream, no code is put out while an entry for it and the next byte is filed, code 0 before byte 0 excepted, and the table is cleared exactly when that is due |
| Compress.AfterClear | program_assignment_2/src/minix/commands/compress/compress.c:1491-1494 | after CLEAR the compressor stands as the decompressor will |
| Compress.HitExtends | program_assignment_2/src/minix/commands/compress/compress.c:795-812 | following a hit lengthens the word that is held |
| Decompress.WhatComes | program_assignment_2/src/minix/commands/compress/compress.c:1138-1163 | whether a chunk is left, and how long it is, is decided by the codes still to come |
| Decompress.Decompressor.GetCode | program_assignment_2/src/minix/commands/compress/compress.c:1125-1200 | returns the next code of the stream, or -1 after the last |
| Decompress.Decompressor.Unwind | program_assignment_2/src/minix/commands/compress/compress.c:1071-1087 | the stack holds the word of the code reversed, the first character on top, the KwKwK case included |
| Decompress.Decompressor.Decompress | program_assignment_2/src/minix/commands/compress/compress.c:1034-1113 | writes the text that the codes stand for |
| Decompress.LearnKeepsChains | program_assignment_2/src/minix/commands/compress/compress.c:1099-1104 | the dictionary entry that is made one code late is the word the compressor filed |
| Decompress.EntryFitsIff | program_assignment_2/src/minix/commands/compress/compress.c:1099-1110 | the entry made after a code fits a dictionary exactly if the code names a word: after one that should not be admitted, the table refers to an entry that does not exist |
| Regex.Search | program_assignment_2/src/minix/commands/cawf/regexp.c:201-810 | a pattern that compiles is found exactly if some stretch of the string matches it; none begins earlier; what is noted are the end and the part bounds of the way of matching that is preferred to all others |
| Regex.Regcomp | program_assignment_2/src/minix/commands/cawf/regexp.c:201-278 | a pattern is refused for just the reason the reader gives, or because its program is too long; otherwise the result is a program of the pattern with all the hints there are: first character, anchor, and the longest literal if anything is expensive |
| Regex.FindHints | program_assignment_2/src/minix/commands/cawf/regexp.c:240-275 | the first character, the anchor and the literal that must appear are set exactly if the pattern has them, and hold of every match |
| Regex.FindMust | program_assignment_2/src/minix/commands/cawf/regexp.c:263-273 | the literal found is the longest piece of text, the later among equals, and appears in every string that matches |
| RegexMatch.Regexp.Regexec | program_assignment_2/src/minix/commands/cawf/regexp.c:717-780 | true exactly if the pattern matches somewhere, whichever hints are used; the match noted begins first, and its end and the bounds of its parts are those of the first match in the order of preference |
| RegexMatch.Regexp.Regtry | program_assignment_2/src/minix/commands/cawf/regexp.c:785-810 | true exactly if the pattern matches at that position; then end and bounds are those of the first match in the order of preference |
| RegexMatch.Regexp.Regmatch | program_assignment_2/src/minix/commands/cawf/regexp.c:822-1011 | succeeds exactly if the search of the program does, and then leaves the input where that ends and notes just the bounds it notes; it terminates on every safe program |
| RegexMatch.Regexp.TryRepeats | program_assignment_2/src/minix/commands/cawf/regexp.c:964-991 | backing off from the longest run comes to what the search comes to; the look-ahead skips only numbers of repetitions that cannot succeed |
| RegexMatch.Regexp.TryBranches | program_assignment_2/src/minix/commands/cawf/regexp.c:946-962 | tries the alternatives in order and comes to what the first that succeeds comes to |
| RegexMatch.Regexp.Regrepeat | program_assignment_2/src/minix/commands/cawf/regexp.c:1016-1056 | counts the characters in a row that the operand takes |
| RegexMatch.Regexp.MustFound | program_assignment_2/src/minix/commands/cawf/regexp.c:739-752 | false only if the literal occurs nowhere in the string |
| RegexSearch.ProgramSearch | program_assignment_2/src/minix/commands/cawf/regexp.c:822-1011 | searching the program of a pattern comes to the first match in the order of preference, with its end and all bounds, or fails if there is none |
| RegexSearch.PieceSearch | program_assignment_2/src/minix/commands/cawf/regexp.c:822-1011 | the same for the program of a piece and whatever is laid behind it |
| RegexSearch.StarSearch | program_assignment_2/src/minix/commands/cawf/regexp.c:425-431 | the BRANCH and BACK loop made for a `*` comes to what trying the repetition, more before fewer, comes to |
| RegexSearch.PlusSearch | program_assignment_2/src/minix/commands/cawf/regexp.c:434-440 | so does the loop made for a `+`, with once at least |
| RegexSearch.OptSearch | program_assignment_2/src/minix/commands/cawf/regexp.c:441-447 | the choice made for a `?` comes to what trying the operand, and then nothing, comes to |
| RegexSearch.SimpleLoopSearch | program_assignment_2/src/minix/commands/cawf/regexp.c:964-991 | STAR and PLUS on a single character, which count first and then back off, come to what step by step repetition comes to |
| RegexSearch.GroupSearch | program_assignment_2/src/minix/commands/cawf/regexp.c:890-945 | OPEN and CLOSE nodes note the bounds of the last time round, as the part does |
| RegexSearch.AltsSearch | program_assignment_2/src/minix/commands/cawf/regexp.c:946-962 | the linked choice nodes try the alternatives from left to right |
| RegexSearch.StepsDoNotMatter | program_assignment_2/src/minix/commands/cawf/regexp.c:822-1011 | how many steps a search is allowed makes no difference once they are enough |
| RegexOrder.FirstIsMatch | program_assignment_2/src/minix/commands/cawf/regexp.c:785-810 | there is a first match in the order of preference exactly if there is a match, and it is one |
| RegexOrder.SameTry | program_assignment_2/src/minix/commands/cawf/regexp.c:822-1011 | a search depends on what follows only at the places where its expression can end, which for an operand of a loop are all further on |
| RegexTrees.TreeIffMatch | program_assignment_2/src/minix/commands/cawf/regexp.c:822-1011 | a stretch matches exactly if there is a way in which it does: a tree that says which alternative was taken and how often each repetition went round |
| RegexTrees.BeforeOneWay | program_assignment_2/src/minix/commands/cawf/regexp.c:822-1011 | of two ways at most one is preferred: the earlier alternative, or one round more, at the first place where they differ |
| RegexBest.OneBest | program_assignment_2/src/minix/commands/cawf/regexp.c:785-810 | at most one way is preferred to all others, so it and its bounds are determined |
| RegexBest.FirstIsBest | program_assignment_2/src/minix/commands/cawf/regexp.c:890-945 | what the search comes to is the way preferred to all others, with its end, and of every part the bounds of its last time round |
| RegexParts.PartsMatch | program_assignment_2/src/minix/commands/cawf/regexp.c:890-945 | in every way of matching a part has no bounds, or those of a stretch within the match that the one part of that number matches; and it has bounds if it stands outside every `*`, `?` and `|` |
| RegexSafe.ProgramSafe | program_assignment_2/src/minix/commands/cawf/regexp.c:419-420 | on every string the program of a pattern comes to an end: an operand of a loop always takes a character |
| RegexMeaning.StarUnfolds | program_assignment_2/src/minix/commands/cawf/regexp.c:425-431 | a repetition is nothing, or one match that takes a character and then the repetition |
| RegexMeaning.PlusUnfolds | program_assignment_2/src/minix/commands/cawf/regexp.c:434-440 | one, and then perhaps more |
| RegexSpelling.PatternSpelled | program_assignment_2/src/minix/commands/cawf/regexp.c:289-571 | what the parser makes of a text is an expression that the text spells, by a grammar that mentions no order of reading, with its bracketed parts numbered by their opening brackets |
| RegexReading.AcceptedIffPattern | program_assignment_2/src/minix/commands/cawf/regexp.c:289-571 | the parser accepts exactly the texts that spell an expression with at most nine brackets and no operand of `*` or `+` that could be empty |
| RegexErrors.RefusedForFault | program_assignment_2/src/minix/commands/cawf/regexp.c:214-571 | the reason given for refusing a text is a fault it has: ten opening brackets, an operator with nothing before it, a range that runs backwards and so on; the internal errors never occur |
| RegexReading.OneReading | program_assignment_2/src/minix/commands/cawf/regexp.c:289-571 | a text spells one expression at most, up to the order in which classes list their members, and the parser finds it |
| RegexReading.ReadingMatches | program_assignment_2/src/minix/commands/cawf/regexp.c:289-571 | so whichever expression a text is taken to spell, it matches the same stretches as the one that is compiled |
| RegexClass.SetReads | program_assignment_2/src/minix/commands/cawf/regexp.c:484-514 | of a text between brackets, just those without a backward range are accepted, and the characters noted are its single characters and those within its ranges |
| RegexClass.SetAccepted | program_assignment_2/src/minix/commands/cawf/regexp.c:484-514 | a class is accepted exactly if such a text stands there up to a closing bracket |
| RegexClass.ChainedRanges | program_assignment_2/src/minix/commands/cawf/regexp.c:494-507 | in `[x-y-z]` the end of the first range begins the second: the class is all from x to z |
| RegexCompile.Compiler.Pass | program_assignment_2/src/minix/commands/cawf/regexp.c:214-238 | the counting pass arrives at the exact length, and the writing pass fills exactly that with the program |
| RegexCompile.Compiler.RegChoices | program_assignment_2/src/minix/commands/cawf/regexp.c:289-354 | alternatives are laid down one after the other, linked, and hooked to the node behind them |
| RegexCompile.Compiler.RegBranch | program_assignment_2/src/minix/commands/cawf/regexp.c:361-389 | the pieces of a branch are laid down in order, each leading to the next |
| RegexCompile.Compiler.RegPiece | program_assignment_2/src/minix/commands/cawf/regexp.c:400-454 | an atom with its operator, or the error if the operand could be empty or the operators are nested |
| RegexCompile.Compiler.RegAtom | program_assignment_2/src/minix/commands/cawf/regexp.c:464-571 | every kind of atom is read, counted or written, and judged by width and simplicity |
| RegexCompile.Compiler.RegNode | program_assignment_2/src/minix/commands/cawf/regexp.c:577-599 | a node is written, or three bytes counted |
| RegexCompile.Compiler.RegC | program_assignment_2/src/minix/commands/cawf/regexp.c:604-615 | a byte is written, or counted |
| RegexCompile.Compiler.RegInsert | program_assignment_2/src/minix/commands/cawf/regexp.c:622-648 | a node is put in front of the operand, which moves as it is |
| RegexCompile.Compiler.RegTail | program_assignment_2/src/minix/commands/cawf/regexp.c:653-680 | only the last node of the chain changes, and now leads to the target |
| RegexCompile.Compiler.RegOpTail | program_assignment_2/src/minix/commands/cawf/regexp.c:685-694 | the same for the operand of a choice, and nothing for other nodes |
| RegexCompile.Compiler.RegNext | program_assignment_2/src/minix/commands/cawf/regexp.c:1062-1078 | the node that a link, forward or back, leads to |
| RegexCompile.Compiler.MakeStar | program_assignment_2/src/minix/commands/cawf/regexp.c:425-431 | the operand moved and the four links around it make the program of `x*` |
| RegexCompile.Compiler.MakePlus | program_assignment_2/src/minix/commands/cawf/regexp.c:434-440 | the same for `x+` |
| RegexCompile.Compiler.MakeOpt | program_assignment_2/src/minix/commands/cawf/regexp.c:441-447 | the same for `x?` |
| RegexHints.MustHold | program_assignment_2/src/minix/commands/cawf/regexp.c:263-273 | a literal among the pieces of the only branch is contained in every match |
| RegexHints.LongestIs | program_assignment_2/src/minix/commands/cawf/regexp.c:263-273 | the literal looked for is among the pieces, none is longer and no later one as long |
| RegexHints.TextFirst | program_assignment_2/src/minix/commands/cawf/regexp.c:249-250 | a pattern that begins with a literal matches only where its first character is |
| RegexHints.BolFirst | program_assignment_2/src/minix/commands/cawf/regexp.c:251-252 | a pattern that begins with `^` matches only at the beginning |
| IpcRuns.RunIsSafe | program_assignment_3/PA3/minix/kernel/proc.c:414-531 | whatever calls are made in whatever order, calls to oneself included: queues are exact, no rendezvous is missed, and links between different processes make no circle |
| IpcRuns.RunFromRest | program_assignment_3/PA3/minix/kernel/proc.c:804-1044 | from rest, every message sent has been copied out once or is still on its way once; a process waits for itself exactly if it is blocked on itself, which none is if no call names its caller |
| IpcRuns.RunConserves | program_assignment_3/PA3/minix/kernel/proc.c:804-1044 | a run neither loses nor doubles a message |
| IpcRuns.CallKeeps | program_assignment_3/PA3/minix/kernel/proc.c:503-528 | every call keeps all invariants |
| IpcRuns.CallConserves | program_assignment_3/PA3/minix/kernel/proc.c:503-528 | a call adds the message it hands over to those on their way and takes none away |
| IpcRuns.CircleIffSelf | program_assignment_3/PA3/minix/kernel/proc.c:638-702 | a call on a table without circles makes processes wait in a circle exactly if its caller blocks on itself |
| IpcRuns.LoopsOnlyBySelf | program_assignment_3/PA3/minix/kernel/proc.c:804-1044 | a process comes to be blocked on itself by its own call alone, and no call of another frees it |
| IpcRuns.SelfReceiveHangsSenders | program_assignment_3/PA3/minix/kernel/proc.c:656-701 | an input: from rest a process receives from itself; when another then sends to it, the deadlock walk never ends |
| IpcRuns.ReturnsIff | program_assignment_3/PA3/minix/kernel/proc.c:656-701 | a call comes back exactly if it makes no deadlock walk that runs into another process blocked on itself |
| IpcRuns.NoSelfNoCircle | program_assignment_3/PA3/minix/kernel/proc.c:656-701 | after any run in which no call names its caller there is no circle, and every call comes back |
| IpcRuns.SendRecWaits | program_assignment_3/PA3/minix/kernel/proc.c:504-519 | once its message is sent or queued a SENDREC always goes on to wait for the reply, or to take one |
| IpcRuns.ReceiveAnyTakesOldest | program_assignment_3/PA3/minix/kernel/proc.c:980-1021 | RECEIVE from anyone takes the caller that has waited longest |
| IpcRuns.QueuesKeepOrder | program_assignment_3/PA3/minix/kernel/proc.c:885-889 | in every call a caller queue loses one caller, gains one at its end, or stays |
| IpcMail.NotificationsConserved | program_assignment_3/PA3/minix/kernel/proc.c:901-1092 | in every run each notification that counts, because its bit was clear or it was delivered at once, is pending, or waits to be copied out, or was copied out, exactly once |
| IpcMail.NotificationsFromRest | program_assignment_3/PA3/minix/kernel/proc.c:901-1092 | so from rest nobody receives a notification twice, or one that was not sent |
| IpcMail.ReceiveTakesNotification | program_assignment_3/PA3/minix/kernel/proc.c:930-961 | RECEIVE takes the lowest notification it asks for before any message, clears just its bit, and names its source |
| IpcMail.ReceiveKeepsOthers | program_assignment_3/PA3/minix/kernel/proc.c:930-961 | a receive that takes none, as in SENDREC, leaves all bits as they are |
| IpcMail.CallOnlyAsked | program_assignment_3/PA3/minix/kernel/proc.c:804-1092 | what a call delivers comes from a process that the receiver asked for, and no notification comes to one that awaits a reply |
| IpcMail.NoMissedRendezvous | program_assignment_3/PA3/minix/kernel/proc.c:804-1044 | nobody stays queued to a process that waits for it |
| IpcMail.NoMissedNotification | program_assignment_3/PA3/minix/kernel/proc.c:1049-1092 | no notification stays pending for a process that waits for it, unless that awaits a reply |
| IpcMail.SendAnswers | program_assignment_3/PA3/minix/kernel/proc.c:804-896 | which answer a send gives, for each; all but one leave the table as it is |
| IpcMail.SendDelivers | program_assignment_3/PA3/minix/kernel/proc.c:804-896 | an accepted message goes to a process that waits for it, or its sender is queued last; nobody else changes |
| IpcMail.ReceiveAnswers | program_assignment_3/PA3/minix/kernel/proc.c:1022-1044 | which answer a receive gives that finds nothing at hand |
| IpcRights.Confined | program_assignment_3/PA3/minix/kernel/proc.c:452-501 | from rest, in a run of calls that pass the checks, nothing ever comes from a process to one outside its send mask, unless the kernel tells it of an expired quantum |
| IpcRights.TasksUnnotified | program_assignment_3/PA3/minix/kernel/proc.c:491-501 | nor does a notification ever come to a task |
| IpcSafety.SendKeeps | program_assignment_3/PA3/minix/kernel/proc.c:804-896 | a send keeps all invariants, delivered or queued |
| IpcSafety.ReceiveKeeps | program_assignment_3/PA3/minix/kernel/proc.c:901-1044 | so does a receive, whether it finds a notification, a caller or nothing |
| IpcSafety.NotifyKeeps | program_assignment_3/PA3/minix/kernel/proc.c:1049-1092 | so does a notification |
| IpcSafety.OnlyLoopsWait | program_assignment_3/PA3/minix/kernel/proc.c:638-702 | a process waits for itself, through however many others, exactly if it is blocked on itself |
| IpcSafety.WalkEndsIff | program_assignment_3/PA3/minix/kernel/proc.c:656-701 | the deadlock walk for a caller ends exactly if it runs into no other process that is blocked on itself |
| IpcSafety.NewLink | program_assignment_3/PA3/minix/kernel/proc.c:863-889 | a new link closes no circle unless its other end waits for the caller |
| IpcSafety.ExemptionUnusedBySend | program_assignment_3/PA3/minix/kernel/proc.c:677-683 | the exemption for two processes is never needed when sending |
| IpcSafety.ExemptionUnusedByReceive | program_assignment_3/PA3/minix/kernel/proc.c:677-683 | nor when receiving |
| IpcSafety.GroupFits | program_assignment_3/PA3/minix/kernel/proc.c:656-701 | its group is no larger than the process table |
| IpcSafety.SecondWalkEnds | program_assignment_3/PA3/minix/kernel/proc.c:504-519 | the walk in the second half of a SENDREC ends too, even for a call to oneself |
| Ipc.First | program_assignment_3/PA3/minix/kernel/proc.c:981-985 | the first caller in the queue that the receiver accepts |
| Ipc.FindPending | program_assignment_3/PA3/minix/kernel/proc.c:707-772 | the lowest pending notification that the receiver accepts |
| Sched.QueuesAlwaysRight | program_assignment_3/PA3/minix/kernel/debug.c:17-108 | in every state of every run each runnable process is on the queue of its priority once, and nobody else on any |
| Sched.BestAlwaysRuns | program_assignment_3/PA3/minix/kernel/proc.c:1559-1571 | in a run that leaves the current process alone, a preemptible current process is never runnable while a better one is queued |
| Sched.EventKeeps | program_assignment_3/PA3/minix/kernel/proc.c:1526-1709 | setting a flag, clearing one, a new priority and a switch keep both invariants |
| Sched.SwitchKeeps | program_assignment_3/PA3/minix/kernel/proc.c:249-278 | a switch finds a process exactly if one is runnable, and then the best |
| Sched.BestIsBest | program_assignment_3/PA3/minix/kernel/proc.c:1714-1742 | the head of the first queue that is not empty is runnable and no runnable process is better; none means none is runnable |
| Sched.SetPriorityKeeps | program_assignment_3/PA3/minix/kernel/system.c:621-677 | a priority change by way of the queue keeps the queues right, and preemption too unless it is the current process that changes |
| Sched.EnqueueKeeps | program_assignment_3/PA3/minix/kernel/proc.c:1526-1590 | appending a process that has become runnable, with the preemption it may cause, keeps the queues right and preemption complete |
| SchedOrder.EventDoes | program_assignment_3/PA3/minix/kernel/proc.c:1526-1709 | what every event does to flags, priorities and the current process; a process is preempted only by a strictly better one that becomes runnable |
| SchedOrder.EventOrder | program_assignment_3/PA3/minix/kernel/proc.c:1549-1557 | in every event those who stay on a queue keep their order; a newcomer stands last, or first if it was preempted and has time left |
| SchedOrder.StaysAhead | program_assignment_3/PA3/minix/kernel/proc.c:1549-1557 | in every run, of two processes that stay on a queue the one ahead stays ahead |
| SchedOrder.FirstComeFirstServed | program_assignment_3/PA3/minix/kernel/proc.c:1714-1742 | of two processes of one queue that stay runnable the one queued first is picked first |
| Sched.ListsExistIff | program_assignment_3/PA3/minix/kernel/system.c:627-628 | of the priorities that are let through, 16 alone leaves a runnable process for which no right queues exist |
| Sched.NeverPicked | program_assignment_3/PA3/minix/kernel/proc.c:1714-1742 | while every queue holds only processes of its own priority, a process of priority 16 is never picked |
| Kernel.Kernel.DoSyncIpc | program_assignment_3/PA3/minix/kernel/proc.c:414-531 | a call that comes back is refused for the reason of the first check that fails and then changes nothing, or does exactly what the table of processes prescribes; masks and times of all processes stay |
| Kernel.PassesIff | program_assignment_3/PA3/minix/kernel/proc.c:440-501 | exactly those calls pass that the caller is granted, to a partner it is granted and that is alive, or for RECEIVE from anyone |
| Kernel.RefusedFor | program_assignment_3/PA3/minix/kernel/proc.c:440-501 | which reason is given when several hold |
| Kernel.Kernel.Dispatch | program_assignment_3/PA3/minix/kernel/proc.c:503-531 | each call number takes its course, SENDREC by way of SEND into RECEIVE |
| Kernel.Kernel.MiniSend | program_assignment_3/PA3/minix/kernel/proc.c:804-896 | deliver, refuse or queue at the end of the linked list, as specified, with lists and run queues kept intact |
| Kernel.Kernel.MiniReceive | program_assignment_3/PA3/minix/kernel/proc.c:901-1044 | notification first, then the first acceptable caller, else block or be refused, as specified, with lists and run queues kept intact |
| Kernel.Kernel.TakeAtHand | program_assignment_3/PA3/minix/kernel/proc.c:930-1021 | a pending notification is taken before a caller, and the caller taken is unlinked from its list; with neither nothing changes |
| Kernel.Kernel.MiniNotify | program_assignment_3/PA3/minix/kernel/proc.c:1049-1092 | deliver to a receiver that awaits no reply, else set the bit |
| Kernel.Kernel.Deadlock | program_assignment_3/PA3/minix/kernel/proc.c:638-702 | reports a group exactly if there is a deadlock; the group is no larger than the table |
| Kernel.Kernel.HasPending | program_assignment_3/PA3/minix/kernel/proc.c:707-772 | the lowest pending notification that is accepted |
| Kernel.Kernel.FindCaller | program_assignment_3/PA3/minix/kernel/proc.c:981-985 | the walk finds the first acceptable caller and the one before it |
| Kernel.Kernel.WillReceiveFrom | program_assignment_3/PA3/minix/kernel/ipc.h:14-16 | receiving from this source and not sending |
| Kernel.Kernel.Blocker | program_assignment_3/PA3/minix/kernel/proc.h:184-195 | sending is looked at before receiving |
| Kernel.Kernel.Enqueue | program_assignment_3/PA3/minix/kernel/proc.c:1526-1590 | chains the process at the tail and preempts a worse current process; nothing but flags and run-queue links changes |
| Kernel.Kernel.EnqueueHead | program_assignment_3/PA3/minix/kernel/proc.c:1601-1642 | chains the process at the head |
| Kernel.Kernel.Dequeue | program_assignment_3/PA3/minix/kernel/proc.c:1647-1709 | unlinks the process, wherever it stands, and moves the tail if need be |
| Kernel.Kernel.RtsSet | program_assignment_3/PA3/minix/kernel/proc.h:203-211 | sets a flag, and dequeues a process that was runnable |
| Kernel.Kernel.RtsUnset | program_assignment_3/PA3/minix/kernel/proc.h:213-221 | clears a flag, and enqueues a process that becomes runnable |
| Kernel.Kernel.PickProc | program_assignment_3/PA3/minix/kernel/proc.c:1714-1742 | the best process, or none |
| Kernel.Kernel.SwitchToUser | program_assignment_3/PA3/minix/kernel/proc.c:234-278 | a current process that may run stays; a preempted one is put back, and the best one chosen |
| Kernel.Kernel.NotifyScheduler | program_assignment_3/PA3/minix/kernel/proc.c:1793-1824 | the process is stopped and a message sent in its name |
| Kernel.Kernel.SchedProc | program_assignment_3/PA3/minix/kernel/system.c:621-677 | the arguments are checked, then priority and quantum of that process, and no other, changed by way of the queue |
| Kernel.Kernel.DeliverMsg | program_assignment_3/PA3/minix/kernel/proc.c:298-302 | the message leaves the kernel |
| Kernel.Kernel.RunQueuesOk | program_assignment_3/PA3/minix/kernel/debug.c:17-108 | accepts the run queues of any table, broken or not, exactly if they are right, and so those of every state the kernel keeps |
| ProcTable.AfterTaking | program_assignment_3/PA3/minix/kernel/proc.c:981-1021 | unlinking the caller whose message was taken leaves all other queues exact |
| ProcTable.AfterQueueing | program_assignment_3/PA3/minix/kernel/proc.c:868-889 | linking the caller at the end of the queue leaves all other queues exact |
| ProcTable.AppendThread | program_assignment_3/PA3/minix/kernel/proc.c:1549-1557 | linking at the tail leaves all other run queues intact |
| ProcTable.NoQueueIsWrong | program_assignment_3/PA3/minix/kernel/system.c:627-628 | a runnable process of priority 16 makes the run queues wrong, however they are linked |
| RunQueues.AllWalked | program_assignment_3/PA3/minix/kernel/debug.c:31-107 | if the walk meets no fault and every runnable process, the queues are right |
| RunQueues.NoObjection | program_assignment_3/PA3/minix/kernel/debug.c:44-90 | right queues raise none of the objections |
| Links.Unlink | program_assignment_3/PA3/minix/kernel/proc.c:1016-1020 | storing one link takes the k-th element out of a linked list |
| Lottery.DrawIsFair | program_assignment_2/src/minix/kernel/proc.c:1813-1828 | with the count right: there is a draw exactly if a queued process holds tickets; the winner is queued and holds some; each queued process has as many draws as tickets |
| Lottery.DrawShares | program_assignment_2/src/minix/kernel/proc.c:240-284 | while the count is right, of the random numbers below it each process runnable at the draw, a preempted one included, has as many as it holds tickets: with those, and no others, it runs next |
| Lottery.ExactShare | program_assignment_2/src/minix/kernel/proc.c:1813-1828 | of the draws up to any count a queued process wins as many as it holds tickets, less those of its tickets that lie beyond the count |
| Lottery.EveryDrawWins | program_assignment_2/src/minix/kernel/proc.c:1816-1828 | no draw up to the count falls through, and every larger one does |
| Lottery.WinsWith | program_assignment_2/src/minix/kernel/proc.c:1816-1828 | a process wins with the numbers that follow the tickets of those ahead of it |
| Lottery.DriftIff | program_assignment_2/src/minix/kernel/proc.c:1544-1577 | a change of tickets keeps the count right exactly under this condition |
| Lottery.RenewedClamps | program_assignment_2/src/minix/kernel/proc.c:1544-1577 | the new number of tickets is the sum brought within 0 and 20, and the count moves only where nothing is cut off |
| Lottery.FairIff | program_assignment_2/src/minix/kernel/proc.c:1813-1828 | no draw falls through and every queued process has as many as it holds tickets exactly while the count is right |
| Lottery.DriftStarves | program_assignment_2/src/minix/kernel/proc.c:1544-1577 | an input on which the count drifts: a process with 15 of 17 tickets is given ten more, and the other process never wins again |
| Lottery.Scheduler.PickProc | program_assignment_2/src/minix/kernel/proc.c:1813-1830 | whatever the count, the walk stops at the process on whose tickets the drawn number falls, and comes to none exactly if the count is not positive or the number is beyond the tickets |
| Lottery.Scheduler.Enqueue | program_assignment_2/src/minix/kernel/proc.c:1581-1643 | the stock queue operation; the count stays as right as it was, preemption included |
| Lottery.Scheduler.EnqueueHead | program_assignment_2/src/minix/kernel/proc.c:1660-1699 | the same at the head |
| Lottery.Scheduler.Dequeue | program_assignment_2/src/minix/kernel/proc.c:1709-1768 | the tickets are deducted whether the process was found or not |
| Lottery.Scheduler.RtsUnset | program_assignment_2/src/minix/kernel/proc.c:1581-1643 | clearing a flag does to queues and total what the ledger says, keeps the queues right and the total as it was against them |
| Lottery.Scheduler.SchedProc | program_assignment_2/src/minix/kernel/proc.c:1581-1768 | so does a priority change |
| Lottery.Scheduler.ProcessSetPriority | program_assignment_2/src/minix/kernel/proc.c:1544-1577 | the tickets are bounded by 0 and 20, and the total drifts by just what `Drift` says |
| Lottery.Scheduler.SwitchToUser | program_assignment_2/src/minix/kernel/proc.c:240-284 | a current process that may run stays; else it is put back if it was preempted, and the next one is drawn |
| Lottery.ActKeeps | program_assignment_2/src/minix/kernel/proc.c:1544-1830 | every action keeps the queues right, and moves the total as it moves the tickets of the runnable processes, but for the drift |
| Lottery.HeldIsTally | program_assignment_2/src/minix/kernel/proc.c:1581-1768 | what the right queues hold are the tickets of the runnable processes |
| Lottery.TotalInRuns | program_assignment_2/src/minix/kernel/proc.c:1531-1830 | in every state of every run the total is off the tickets of the runnable processes by the drifts so far |
| Lottery.AlwaysFair | program_assignment_2/src/minix/kernel/proc.c:1531-1830 | in a run in which nobody is given or loses tickets the total is right in every state, and every draw is fair |
| Disk.Sstf | program_assignment_4/disk_scheduling.c:44-72 | the movement returned is the cost of serving the nearest request first, round by round |
| Disk.FindClosest | program_assignment_4/disk_scheduling.c:53-61 | the first of the nearest requests not yet served, within reach |
| Disk.Closest | program_assignment_4/disk_scheduling.c:53-61 | none unserved is nearer, and none before it is as near |
| Disk.NoneLeftBehind | program_assignment_4/disk_scheduling.c:44-72 | no request strictly inside the range visited is ever left unserved |
| Disk.ServedIffInReach | program_assignment_4/disk_scheduling.c:44-72 | each request is served exactly once if the head starts in reach of one, and none is if it does not |
| Disk.OutOfReach | program_assignment_4/disk_scheduling.c:44-72 | an input: with all requests on the last cylinder and the start at -2 none of a thousand requests is served |
| Disk.RoundsOk | program_assignment_4/disk_scheduling.c:44-72 | after every round, an unserved request on the far side is at least as far away as the head has moved |
| Disk.SstfTwiceTheSpan | program_assignment_4/disk_scheduling.c:44-72 | the head moves at most twice over the range of the start and all requests |
| Disk.SstfTwoCompetitive | program_assignment_4/disk_scheduling.c:44-72 | at most twice the cost of any order that serves everything |
| Disk.NothingCheaper | program_assignment_4/disk_scheduling.c:205-219 | no order is cheaper than going to the nearer end and then across |
| Disk.Fcfs | program_assignment_4/disk_scheduling.c:24-32 | the cost of serving in the order of arrival |
| Disk.Optimal | program_assignment_4/disk_scheduling.c:205-219 | the cost of going to the lowest request and then up to the highest |
| Disk.SweepMinimalIff | program_assignment_4/disk_scheduling.c:205-219 | that is the least possible exactly if the lowest request is the nearer end, or all are in one place |
| Disk.SweepNotMinimal | program_assignment_4/disk_scheduling.c:205-219 | an input on which an order is cheaper: one request at 0, the others where the head is |
| Disk.SweepsExist | program_assignment_4/disk_scheduling.c:205-219 | there is an order of service with that cost |
| ReadersWriters.Exclusion | program_assignment_3/PA3/reader.c:55-70 | after every run: a writer in its section excludes all readers and other writers; while the mutex is free the count is the number of readers inside, who hold the write semaphore exactly if it is positive |
| ReadersWriters.AlwaysInv | program_assignment_3/PA3/reader.c:55-70 | the invariant holds after every interleaving of steps |
| ReadersWriters.GuardedStep | program_assignment_3/PA3/reader.c:55-70 | every step under the mutex, loads, stores and tests of the count apart, keeps the invariant |
| ReadersWriters.FreeStep | program_assignment_3/PA3/writer.c:56-61 | so does every step of a writer, and reading the mailbox |
| ReadersWriters.MailboxAfter | program_assignment_3/PA3/writer.c:56-61 | after every run the mailbox holds the number of the last write, or its first value, and a writer stands where its number of steps puts it, with the number it was given last |
| ReadersWriters.WhatIsReadWasWritten | program_assignment_3/PA3/reader.c:62-63 | what a reader takes is what was written last |
| ReadersWriters.OnlyReadingReceives | program_assignment_3/PA3/reader.c:62-63 | and it keeps that until it reads again |
| ReadersWriters.InitialInv | program_assignment_3/PA3/reader_writer.c:68-73 | the initial values establish the invariant |
| ReadersWriters.MailboxIsStable | program_assignment_3/PA3/reader.c:62-63 | while a reader is inside no step changes the mailbox |
| ReadersWriters.SomeoneCanStep | program_assignment_3/PA3/reader.c:55-70 | after every run some process can go on |
| ReadersWriters.WriterCanStarve | program_assignment_3/PA3/writer.c:56-57 | two readers that take turns can keep a waiting writer out for ever |
| ReadersWriters.StarvesIffTwoReaders | program_assignment_3/PA3/reader_writer.c:81-87 | a writer can be kept out for ever exactly if two readers at least are started |
| ReadersWriters.OutForSixSteps | program_assignment_3/PA3/reader.c:55-70 | with one reader or none, after every run, a writer finds the semaphore free after six steps of the others at most |
| Crc.Checksum | program_assignment_2/src/minix/commands/crc/crc.c:88-107 | the table-driven loop computes division bit by bit, with no zero bits behind the message, and counts the bytes |
| Crc.TableRight | program_assignment_2/src/minix/commands/crc/crc.c:42-75 | every entry of the table is what division makes of its number |
| Crc.EntryIs | program_assignment_2/src/minix/commands/crc/crc.c:42-75 | an entry is what eight steps make of its number in the top byte |
| Crc.ByteStep | program_assignment_2/src/minix/commands/crc/crc.c:88 | the macro does eight steps of the division at once |
| CrcPoly.ChecksumIsRemainder | program_assignment_2/src/minix/commands/crc/crc.c:88-107 | the checksum is the remainder of the message modulo x^16 + x^12 + x^5 + 1, and nothing else is |
| CrcPoly.SerialDivides | program_assignment_2/src/minix/commands/crc/crc.c:88-107 | the message is the product of the quotient and the divisor, plus the register |
| CrcPoly.RemaindersEqual | program_assignment_2/src/minix/commands/crc/crc.c:88-107 | remainders are equal exactly if the divisor divides the difference |
| CrcPoly.SameChecksum | program_assignment_2/src/minix/commands/crc/crc.c:88-107 | two messages have the same checksum exactly if the divisor divides their difference |
| CrcPoly.BurstIsSeen | program_assignment_2/src/minix/commands/crc/crc.c:88-107 | messages that differ only within sixteen consecutive bits have different checksums |
| CrcPoly.LeadingZerosUnseen | program_assignment_2/src/minix/commands/crc/crc.c:104-107 | any number of zero bytes in front does not change the checksum |
| Geometry.AddressSurvives | program_assignment_2/src/minix/commands/autopart/autopart.c:385-408 | an address names the sector it was made for exactly if that lies below cylinder 1024 |
| Geometry.ReadBack | program_assignment_2/src/minix/commands/autopart/autopart.c:385-408 | reading an address back gives head and sector, and the cylinder modulo 1024 |
| Geometry.DosIs | program_assignment_2/src/minix/commands/autopart/autopart.c:396-408 | the three bytes as numbers: head, sector from 1 with the two high bits of the cylinder, low byte of the cylinder |
| Geometry.ChsIs | program_assignment_2/src/minix/commands/autopart/autopart.c:385-394 | what any three bytes say |
| GeometryGuess.GuessGeometry | program_assignment_2/src/minix/commands/autopart/autopart.c:425-491 | heads and sectors are returned exactly if they are the only pair that agrees with every end of every partition; otherwise zeros |
| GeometryGuess.CylindersIs | program_assignment_2/src/minix/commands/autopart/autopart.c:447-460 | the number of cylinders is one more than the highest of any end |
| GeometryGuess.TruthNotRuledOut | program_assignment_2/src/minix/commands/autopart/autopart.c:425-491 | the geometry the addresses were written for is ruled out exactly if an entry reaches beyond cylinder 1023; while none does, the guess is that geometry or nothing |
| GeometryGuess.TruthRuledOut | program_assignment_2/src/minix/commands/autopart/autopart.c:425-491 | an input: a partition that ends in the first sector of cylinder 1024 rules out the geometry it was written for |
| GeometryGuess.RuleOut | program_assignment_2/src/minix/commands/autopart/autopart.c:463-475 | for one number of heads, just the sector numbers that do not fit are cleared, and the row is given up if none is left |
| GeometryGuess.TakeEnd | program_assignment_2/src/minix/commands/autopart/autopart.c:462-475 | after an end is taken into account the bit map says which pairs agree with all ends so far |
| GeometryGuess.Count | program_assignment_2/src/minix/commands/autopart/autopart.c:478-488 | tells none, one or more pairs apart, and which one |

## Left out

- Sizes of the hash table for small files: `compress` is modelled as a filter, with 69001 slots. Left out too are the `-n` flag, statistics, file names, prompts and variants for other machines.
- Zcat.DecompressInput: requires that the codes of a stream with a good header are admitted, because the decompressor does not look, and a width of at least 9 in that header; what it makes of other streams is not modelled beyond `LzwReading.BrokenStream` and `Decompress.EntryFitsIff`.
- Zcat.CompressInput: that a code is put out only for want of an entry is not said of code 0 before byte 0, because the table can lose that entry (`Compress.ZeroKeptIff`).
- Compress.Compressor.ClBlock: a rule for when to clear other than the ratio is a function of the number of bytes read.
- `getcode` reads one byte past its buffer where the shift leaves no bits for it and masks it away; the model does not read it. `cl_hash` clears sixteen slots at a time; the model one.
- `strchr`, `strcspn`, `strncmp` and `strlen` are functions on strings. Checks for null arguments and for a corrupted program, `regerror` and `regdump` are left out.
- Process exit, asynchronous sends, signals, tracing, several processors, time accounting and the status register of message passing are left out. An endpoint is a process slot; its generation does not change. Each process has a privilege structure of its own, numbered like its slot.
- Copying a message from a process succeeds or fails as the model is told. The pending bits are a set, looked through bit by bit.
- Kernel.Kernel.SchedProc: requires a priority other than 16, for which the original goes on behind the end of its arrays; `Sched.ListsExistIff` says that no queues are right then.
- Kernel.Kernel.DoSyncIpc: requires that the deadlock walk ends, as the model has no calls that go on for ever; `IpcRuns.ReturnsIff` says which calls those are.
- Kernel.Kernel.SwitchToUser: ends where the next process is chosen; the loop over its other flags, address spaces and idling are left out.
- Lottery.Scheduler.Enqueue: run queues are lists in this model; their links are modelled in `Kernel`, whose code is the same.
- Lottery.Scheduler.PickProc: the random number is an argument, and the array of queue heads is taken to be assigned, which in the original happens only for the other scheduling style.
- `scan`, `cscan`, `look` and `clook` are left out; the library's sort is a function.
- ReadersWriters.Exclusion: a semaphore is a counter with atomic waits and posts; the queue of waiting processes in `sem.c`, and the order in which it wakes them, are not modelled.
- Reading files and printing are left out everywhere, as are arithmetic overflows that the sizes of tables rule out.
