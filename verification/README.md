# Siskin: proofs about the interpreter and the C runtime

Siskin runs every program in two ways: a tree-walking interpreter written in Rust, and a C program that the
compiler emits together with a runtime. Both must behave alike. This project models, in Dafny, the places where
a fast or stateful form stands for a simple meaning, and proves that it does.

- **Regular expressions** (`Regex*.dfy`). The parser emits code while it reads: for each `|`, `*`, `+` and `?` it
  drains a finished fragment, relocates its jumps and emits it again. A machine with a stack of saved captures
  runs the code. `RegexSyntax` reads a pattern as a tree; `RegexSpelling` and `RegexGrammar` say apart from any reader
  which texts spell which trees, and the reader accepts exactly those; `RegexPrinting` writes trees as patterns and
  shows that reading undoes writing; `RegexCompiler` is the compiler, shown to emit the layout of that tree; `RegexMeaning` gives the tree a language and an order of preference
  without any machine; `RegexMachine`, `RegexSearch` and `RegexCorrect` connect the machine's runs with both;
  `RegexTheorems` states the outcome for `match_at` and `search`, `RegexExact` exactly when a match is found, and
  `RegexSpin` what that means for repetitions; `RegexPieces` says by characters what single pieces and classes match,
  from the pattern's text to the machine's answer, and `RegexPreference` which match wins, by what matches and no
  choices; `RegexDrivers` is `find_all`, `replace` and `split_re`.
  The dialect is that of the code: a leading `?` is a literal, `^` is position 0 only, `[\D]` takes the ranges of
  `\D` without its negation, and a repeated body that can match empty spins until the cap.
- **Tasks and channels** (`Task*.dfy`). One lock, one condition variable and three counters tell a deadlock from a
  pause. `TaskModel` is a step system for both runtimes, over any number of tasks and channels, with spurious
  wake-ups; `TaskSafety` proves the invariant over every schedule, that deadlock reports are exact and that
  channels are queues; `TaskLaws` says on the state alone when an operation waits, what it does, and how many sends
  and receives go through; `TaskChannel` is the growing ring buffer of the C runtime; `TaskRuntime` has both runtimes as
  they run, counters, channels and marks updated in place, with each critical section shown to be one step of
  `TaskModel`.
- **Runtime data structures**. `Dict`: insertion-ordered open addressing against the interpreter's list of pairs.
  `MergeSort`: the bottom-up merge sort is the one stable order. `Utf8`, `Utf8Strings`, `StringSplit`: byte-level
  string operations against characters. `Pointers`: guards, generations and arenas of debug builds, where every
  guard lies in the same byte memory as the data that could overwrite it.
- **Compiler passes**. `Closure*.dfy`: copying just the free names of a function is enough. `ClosureNames` says as a
  textbook would which names are free, and `ClosureLaws` pins the evaluator down by arithmetic, text and what small
  programs compute. `TypeLayout`,
  `TypeCycles`, `TypeOrder`: the boxing pass and the order in which C types are emitted. `Layout`: the layout
  tokens of the lexer, and the off-side rule they follow.
- **JSON** (`Json*.dfy`). Reader and writer undo each other; `JsonLexemes` and `JsonGrammar` say apart from the reader
  which texts spell which values, and the reader accepts exactly those; `JsonParser` has both as they run, with a
  cursor and a buffer, proved against the functions of `JsonText`.

Four promises turned out not to hold on all inputs. Each has a concrete counterexample and the condition under
which the code does meet it:

- A repetition whose body can match empty can make the matcher miss a match under every step cap
  (`RegexTheorems.SpinsForever`, and for lazy ones `RegexExact.LazySpinsForever`). For every pattern, input and start,
  a match is found under some cap if and only if some reading of it is reached before any that comes round a
  repetition without having read a character, and one cap computed from pattern and input is then enough
  (`RegexExact.PatternFoundIff`; `RegexExact.FoundIff` says so of any program). Patterns whose repeated bodies cannot
  match empty are always answered (`RegexTheorems.SafeMatchAt`); one greedy repetition around such a pattern is, if
  and only if that pattern cannot match empty either (`RegexSpin.RepetitionIsAnsweredIff`).
- A nested function whose own name begins with `λ` is taken for an anonymous one, so that its name is not bound in
  its body: it cannot call itself (`ClosureTheorems.OwnName`), and the free names come out wrong
  (`ClosureTheorems.LambdaNamesMislead`, for every such name). A name is safe for nested functions if and only if it
  does not begin with `λ` (`ClosureTheorems.SafeNames`), and programs with ordinary names only need no more than the
  free names (`ClosureTheorems.FreeNamesAreEnoughForOrdinary`).
- The by-value search does not look into fixed-size arrays, so a struct that contains itself through a `?T` field
  and an array is not boxed (`TypeCycles.ArraysHideCircles`). Which fields the pass boxes can be told from the program
  alone: those that close a circle without arrays that goes through no earlier `?T` or `!T` field
  (`TypeCycles.BoxedIff`). So the layout is sound if and only if the program has no circle of direct fields and each
  of its circles with an array on it goes through such a field (`TypeCycles.PassMakesLayoutSound`). The order of the
  structs counts (`TypeCycles.OrderMatters`).
- A text with a bracket left open is accepted, and its last line end lies inside the bracket
  (`Layout.OpenBracketAtEnd`). No line end is inside brackets if and only if the last line of the text closes every
  bracket it opens (`Layout.TokensAreSound`).

And one promise of the writer has an exact condition: parsing written JSON gives the same tree if and only if no
dictionary in it has a key twice (`JsonRoundTrip.RoundTrip`).

Where the source changes state, so does the model: `Compiler`, `Parser`, `Writer`, `Table`, `NativeRuntime`,
`InterpreterRuntime`, `Channel`, `Heap`, `Lexer`, `FreeVars` and `Emission` are classes, and the matcher, the drivers,
the sort, the string operations and the boxing pass are loops. Their methods are proved against a specification
function or state their whole new state, and the theorems are about that function or state.

## Model

| member | source | states |
|---|---|---|
| RegexSyntax.PatternNumbered | micai/src/regex.rs:189-208 | in every accepted pattern the capturing groups are numbered 1, 2, … in the order of their opening parentheses, and there are at most nine |
| RegexPrinting.WrittenPatternIsRead | micai/src/regex.rs:74-249 | every tree (groups numbered in order, at most nine) written with only the parentheses that precedence needs is read back, to the last character, as a tree that matches, prefers and captures the same on every input |
| RegexGrammar.ReadIffDerived | micai/src/regex.rs:74-302 | a text is accepted as a tree if and only if the grammar, which knows no reader, derives it as that tree: signs after signs, a leading `?`, and every spelling of a class included |
| RegexGrammar.DerivedIsRead | micai/src/regex.rs:74-302 | whatever derivation a whole text has, that is the tree it is read as |
| RegexGrammar.AltFound | micai/src/regex.rs:74-96 | whatever is read as an alternation, from any place, has a derivation of what was read, ending where the reader stopped |
| RegexGrammar.InsideReads | micai/src/regex.rs:74-96 | an alternation derived in place, up to a `)` or the end, is read as its tree; nothing after it is touched |
| RegexGrammar.SeqReads | micai/src/regex.rs:98-106 | a sequence derived in place is read item by item, each added to what was read before |
| RegexGrammar.SignsRead | micai/src/regex.rs:108-122 | each repetition sign wraps the atom with the signs before it; a `?` right after one makes it lazy and nothing else does |
| RegexGrammar.AtomReads | micai/src/regex.rs:176-249 | single pieces, capturing and non-capturing groups are read as they are derived |
| RegexSpelling.ClassReads | micai/src/regex.rs:251-302 | a bracketed class is read with its negation and the ranges of its members in order |
| RegexSpelling.SpellFound | micai/src/regex.rs:209-249 | every single piece that is read, a class included, has a spelling that ends where the reader stopped |
| RegexSpelling.MembersFound | micai/src/regex.rs:251-302 | whatever is read between brackets is a series of escapes, ranges and single characters, with `]` as itself only in the first place and nothing before a `-` that makes a range but the range's low end |
| RegexPieces.ClassTakes | micai/src/regex.rs:16-21 | a class is what its spelling says: its members are listed by character (`\d` is 0 to 9, `\w` and `\s` by listing, spans from low to high), a capital letter keeps its members inside brackets and is their complement outside, and `^` turns the whole class round |
| RegexPieces.MembersCover | micai/src/regex.rs:264-300 | the ranges read between brackets cover a character exactly when some member spelled there stands for it |
| RegexPieces.PieceMatches | micai/src/regex.rs:366-405 | a single piece matches a stretch exactly when it is one character that the piece takes, or nothing at the start or the end for `^` and `$` |
| RegexPieces.PieceIsRead | micai/src/regex.rs:209-249 | a pattern that is one spelled piece is read as just that piece |
| RegexPieces.PieceIsFound | micai/src/regex.rs:353-430 | from the text of a one-piece pattern to the answer of the machine: it is found exactly where the character there is one that the piece takes, and captures just that |
| RegexCompiler.Compile | micai/src/regex.rs:55-66 | the emitted program is, instruction for instruction and class for class, the layout of the tree that the pattern spells, between a save 0 and save 1, match; a pattern that spells none is refused with the reader's error |
| RegexCompiler.Compiler.Alternatives | micai/src/regex.rs:74-96 | draining the left branch, relocating it behind a split and emitting it again leaves the layout of the whole alternation from the fragment's start, for any nesting of relocations, and leaves everything before it alone |
| RegexCompiler.Compiler.Concat | micai/src/regex.rs:98-106 | fragments emitted one after the other are the layout of the sequence |
| RegexCompiler.Compiler.Repeat | micai/src/regex.rs:108-174 | repetition signs in a row wrap the fragment emitted so far, each around the last |
| RegexCompiler.Compiler.WrapStar | micai/src/regex.rs:124-140 | the body moves up past the new split, its own jumps with it; the split is ordered by laziness and the closing jump returns to it |
| RegexCompiler.Compiler.Atom | micai/src/regex.rs:176-249 | an atom emits the layout of its own tree, or the error that the reader gives |
| RegexCompiler.Compiler.Parenthesis | micai/src/regex.rs:183-208 | a group opens and closes its own two slots around its body; the group limit and a missing `)` are errors |
| RegexCompiler.Compiler.ClassMembers | micai/src/regex.rs:251-302 | the ranges read from a class, with a class inside it giving its ranges and losing its negation |
| RegexCompiler.Relocate | micai/src/regex.rs:305-311 | moving a fragment by adding to its jump targets is the same as laying the tree out at the new place |
| RegexCorrect.TargetsInside | micai/src/regex.rs:74-174 | every jump and split target of a fragment [start, end) lies in [start, end], after any number of relocations |
| RegexCorrect.ProgramRuns | micai/src/regex.rs:353-356 | a compiled program never runs off its end, uses only slots and classes that exist, and has its only match instruction last |
| RegexMeaning.MatchesIffChoices | micai/src/regex.rs:406-417 | the language of a tree, given without any machine, is exactly what some list of choices at its branch points walks through |
| RegexMeaning.WalkExtends | micai/src/regex.rs:406-417 | choices beyond those used do not change a walk and are left over |
| RegexCorrect.WalkRuns | micai/src/regex.rs:361-429 | every walk through a tree is a run of its fragment from start to end, with the same captures |
| RegexCorrect.RunsWalk | micai/src/regex.rs:361-429 | every run that gets out of a fragment leaves at its end and is a walk through its tree |
| RegexCorrect.Progress | micai/src/regex.rs:361-429 | a walk never goes back or past the input, and moves on if the tree cannot match empty |
| RegexMachine.MatchAt | micai/src/regex.rs:353-430 | the loop over `pc`, `sp`, `saves` and the stack computes the step-by-step search, capped runs included |
| RegexMachine.SearchFrom | micai/src/regex.rs:433-444 | the scanning loop computes the first start at which the matcher answers |
| RegexSearch.TickSound | micai/src/regex.rs:361-429 | one step of the machine keeps the stack in preference order and covering every continuation not yet refuted |
| RegexSearch.SearchIsRight | micai/src/regex.rs:353-430 | whenever the stack machine stops on its own, it returns the captures of the accepting run that comes first in split-preference order, and an empty stack means that there is none |
| RegexSearch.SearchEnds | micai/src/regex.rs:361-429 | if no run from the start is longer than d steps, the machine stops within 2^(d+1)-1 steps |
| RegexTheorems.AcceptsIffReads | micai/src/regex.rs:353-430 | the compiled program accepts by a list of choices exactly when the tree reads by it, with the same captures |
| RegexTheorems.MatchAtIsRight | micai/src/regex.rs:353-430 | for every pattern, input and number of steps: a win carries the captures of the most preferred reading, and a loss without the cap means that no stretch from that start matches |
| RegexTheorems.BestIsMatch | micai/src/regex.rs:406-417 | the captures of a win span a match of the pattern from the start, and each group's span lies inside it or is unset |
| RegexPreference.LeftFirst | micai/src/regex.rs:74-96 | of two alternatives the left one wins wherever it matches at all |
| RegexPreference.LazyTakesLeast | micai/src/regex.rs:116-171 | a lazy `*` or `?` that wins has taken nothing, a lazy `+` one round |
| RegexPreference.GreedyTakesAll | micai/src/regex.rs:116-171 | where a greedy `*` or `+` that wins stops, its body matches no more; a greedy `?` takes its body if it can |
| RegexPreference.GroupsHoldMatches | micai/src/regex.rs:183-208 | whatever a group of the answer has captured is matched by what stands between its parentheses |
| RegexTheorems.SearchIsLeftmost | micai/src/regex.rs:433-444 | search answers at the first start that has a match, with the most preferred reading there; it misses an earlier start only where the step cap cut the matcher off |
| RegexTheorems.SafeSearchEnds | micai/src/regex.rs:108-174 | when no `*` or `+` body can match empty the search ends by itself within a number of steps computed from the tree and the input |
| RegexTheorems.BusyRunIsShort | micai/src/regex.rs:361-429 | a run that never comes round a repetition without reading is no longer than a bound computed from the pattern and the input |
| RegexTheorems.SafeMatchAt | micai/src/regex.rs:353-430 | for such patterns, and a cap of at least that number, the matcher answers if and only if something matches |
| RegexTheorems.SpinsForever | micai/src/regex.rs:124-140 | the condition is needed: the pattern `(?:a*)*` matches the empty stretch of `b`, yet the matcher reports no match under every cap |
| RegexExact.PatternFoundIff | micai/src/regex.rs:353-430 | for every pattern, input and start: some cap finds a match from there if and only if some reading has no choices tried up to it that come round a `*` or `+` without reading a character; a cap computed from the pattern and the input then finds it |
| RegexExact.FoundIff | micai/src/regex.rs:353-430 | for every program, input and start: with steps enough a match is found exactly when some run accepts and no run tried up to then comes back to an instruction at the position where it was |
| RegexExact.FoundHasNoLoop | micai/src/regex.rs:361-429 | under every cap: the run that is found is the answer, and no run tried before it loops |
| RegexExact.FoundIsInTime | micai/src/regex.rs:353-430 | under every cap: what is found is a reading before which no choices idle in a repetition |
| RegexExact.InTimeIsFound | micai/src/regex.rs:353-430 | with steps enough, computed from the pattern and the input, a start with such a reading is answered |
| RegexExact.IdlingLoops | micai/src/regex.rs:124-156 | a walk that comes round a repetition without reading is a run that comes back to its place |
| RegexExact.LazySpinsForever | micai/src/regex.rs:142-156 | lazy repetitions spin too: `(?:a*?)*?b` matches all of `ab`, yet no cap finds it |
| RegexSpin.FoundNeverLeavesEarly | micai/src/regex.rs:124-156 | for every pattern, input and cap: a match that is found never leaves a greedy `*` or `+` at a place where its body could have matched nothing; a pattern whose every match does that is never found |
| RegexSpin.RepetitionIsAnsweredIff | micai/src/regex.rs:124-156 | a pattern that is one greedy `*` or `+`, over a body in which no repeated body can match nothing, is answered right on every input, given steps enough, if and only if that body cannot match nothing itself |
| RegexSpin.NothingFoundInNothing | micai/src/regex.rs:361-366 | otherwise it is never found in the empty input, under any cap, although it matches there |
| RegexSpin.Sooner | micai/src/regex.rs:413-416 | for every reading that leaves early there is one with the same end that the machine prefers: one empty round more |
| RegexSpin.SameShape | micai/src/regex.rs:406-411 | captures have no say in where a match goes |
| RegexSpin.OtherRest | micai/src/regex.rs:361-429 | a stretch of choices is used up alike whatever choices come after it |
| RegexDrivers.FindAll | micai/src/interp.rs:3254-3268 | the texts of successive matches that lie in order, each found from where the last one left off |
| RegexDrivers.Replace | micai/src/interp.rs:3291-3321 | the unmatched stretches in order, with one copy of the replacement for each match |
| RegexDrivers.SplitRe | micai/src/interp.rs:3269-3290 | the stretches between the matches that are not empty |
| RegexDrivers.CutsInOrder | micai/src/interp.rs:3254-3321 | the loop ends on every input, also with empty matches, and its matches never overlap and never go back |
| RegexDrivers.CutsApart | micai/src/cgen.rs:6775-6842 | any two matches are apart: the later one starts no sooner than the earlier one ends, and further on after an empty one |
| RegexDrivers.CutsFollow | micai/src/interp.rs:3254-3266 | each match is what the search finds from the end of the match before, one on after an empty one, and the walk goes on as long as it finds any |
| RegexDrivers.TextAt | micai/src/interp.rs:3254-3266 | each text returned is the input from the start to the end of its match |
| RegexDrivers.GapAt | micai/src/interp.rs:3268-3289 | each piece between matches is the input from the end of one to the start of the next |
| RegexDrivers.SolidInOrder | micai/src/interp.rs:3276-3280 | the matches cut out by `split_re` are just those that are not empty, in order |
| RegexDrivers.SplitConserves | micai/src/cgen.rs:6825-6842 | the pieces of a split, with the matches it cut at put back between them, rebuild the text |
| RegexDrivers.ReplaceConserves | micai/src/cgen.rs:6807-6823 | replacing keeps every character outside the matches once and in order |
| RegexDrivers.CutsExhaustive | micai/src/interp.rs:3254-3321 | for every pattern and every cap, a match is passed over only at starts where the cap cut the search off |
| RegexDrivers.CutsExact | micai/src/interp.rs:3254-3321 | with steps enough the matches taken are, one after the other, the first starts from which a reading is reached before any that idles; a start is passed over exactly when it has none |
| RegexDrivers.SafeCutsExhaustive | micai/src/interp.rs:3254-3321 | for patterns whose repeated bodies cannot match empty, and steps enough, no match is passed over between two that were taken |
| TaskSafety.ReachableGood | micai/src/rt_conc.c:27-70 | in every state that any schedule of any number of tasks and channels reaches, in both runtimes: `blocked` counts exactly the waiters with the current epoch, it is below `live`, and each waiter whose condition has come true has a stale epoch |
| TaskSafety.StepGood | micai/src/rt_conc.c:51-115 | each critical section and each wake-up, spurious ones included, keeps that invariant or stops with a report |
| TaskSafety.ReportIffAllAsleep | micai/src/conc.rs:64-83 | a waiter reports a deadlock exactly when every other live task is asleep with a condition that is false |
| TaskSafety.ReportsAreSound | micai/src/rt_conc.c:38-57 | after a report, no schedule whatever, were the program to go on, lets any task pass its wait or changes any channel |
| TaskSafety.StuckForever | micai/src/rt_conc.c:51-57 | once all live tasks wait on false conditions, nothing but spurious wake-ups can ever happen |
| TaskSafety.NoLostWakeUp | micai/src/rt_conc.c:32-36 | after any schedule, a waiter whose condition has become true has been signalled |
| TaskSafety.SomeoneCanGo | micai/src/conc.rs:37-41 | while nothing is reported there is a live task that is running or has been signalled: no silent hang |
| TaskSafety.StuckIsReported | micai/src/conc.rs:64-83 | from a stuck state, every schedule that wakes each signalled waiter, whatever else it does, ends in a deadlock report |
| TaskSafety.StuckWakeUp | micai/src/conc.rs:64-83 | in a stuck state each signalled waiter that wakes lowers the number of tasks still up, and the last one reports; a spurious wake-up changes nothing |
| TaskSafety.ChannelsOverTime | micai/src/rt_conc.c:130-174 | over any schedule: values sent are values received followed by the queue, a sized channel never exceeds its size, nothing is sent after close, and a receiver is told the end only when closed and drained; the interpreter's channels do the same |
| TaskSafety.WakeAllInv | micai/src/rt_conc.c:32-36 | waking everyone restores the counting invariant whatever the condition changes were |
| TaskLaws.MustWaitIff | micai/src/rt_conc.c:130-159 | an operation waits exactly when: sending, the channel is open, sized and full; receiving, it is open and empty; joining, the other task is not done; at the end, other tasks are live |
| TaskLaws.WaitIs | micai/src/conc.rs:67-83 | waiting changes nothing but the waiter and the count of the waiting, or is reported when nobody else is up |
| TaskLaws.SendIs | micai/src/interp.rs:2359-2385 | a send that need not wait is refused on a closed channel, and else its value is last in the queue |
| TaskLaws.RecvIs | micai/src/interp.rs:2312-2325 | a receive that need not wait gives the first value, or the end of a channel that is closed and empty |
| TaskLaws.JoinIs | micai/src/interp.rs:2348-2357 | a join that need not wait changes no channel and no other task; the last wait ends the program |
| TaskLaws.AnyoneMayGo | micai/src/rt_conc.c:40-60 | the schedules leave nothing out: a running task may do anything at any time, and a waiter may wake up whether it was woken or not |
| TaskLaws.SendsNeverWait | micai/src/rt_conc.c:130-150 | any number of values goes onto an open channel without a size, in order, and its sender never waits; onto a sized one, as many as fit |
| TaskLaws.SendsFillUp | micai/src/rt_conc.c:130-150 | onto a sized channel go exactly as many values as there is room for, and the sender waits with the next one |
| TaskLaws.RecvsTakeInOrder | micai/src/rt_conc.c:152-167 | as many values as are queued are received in order without waiting, from an open channel or a closed one |
| TaskLaws.DeadlockIff | micai/src/conc.rs:70-77 | after any schedule an attempt reports a deadlock exactly when what it needs is not there and every other live task sleeps, unwoken, for something that is not there |
| TaskLaws.ReportedMustWait | micai/src/conc.rs:70-77 | when a deadlock has been reported, every live task waits for something that is not there |
| TaskChannel.Channel.Push | micai/src/rt_conc.c:137-148 | the ring buffer's contents with one value more at the end, growing when full |
| TaskChannel.Channel.Grow | micai/src/rt_conc.c:137-146 | growing unrolls the ring and keeps the queue |
| TaskChannel.Channel.Pop | micai/src/rt_conc.c:161-163 | the first value comes out and the rest stay in order |
| TaskChannel.RingAt | micai/src/rt_conc.c:141-147 | the i-th value of the queue is at head + i, wrapped around |
| TaskChannel.PushRing | micai/src/rt_conc.c:147-148 | writing behind the last value appends to the queue |
| TaskRuntime.NativeRuntime.ChanSend | micai/src/rt_conc.c:130-151 | a send goes on exactly when the channel is open and has no size or room, and adds the value at the end and wakes everyone; it is refused exactly on a closed channel, and otherwise waits; every part of it is a step of the machine |
| TaskRuntime.NativeRuntime.ChanRecv | micai/src/rt_conc.c:154-167 | the critical section of a receive is a step of the machine: the first value, the end of a closed channel, or a wait |
| TaskRuntime.NativeRuntime.TaskWait | micai/src/rt_conc.c:96-101 | waiting for a task is a step of the machine and goes on exactly when that task is done |
| TaskRuntime.NativeRuntime.TasksFinish | micai/src/rt_conc.c:111-115 | the wait at the end of `main` is a step of the machine and goes on exactly when no other task is live |
| TaskRuntime.NativeRuntime.Begin | micai/src/rt_conc.c:96-167 | whatever a running task starts on is one step of the machine from the state before |
| TaskRuntime.NativeRuntime.WakeUp | micai/src/rt_conc.c:51-57 | waking with the epoch remembered, leaving the count if it is unchanged and trying again is one step of the machine |
| TaskRuntime.NativeRuntime.Spawn | micai/src/rt_conc.c:74-94 | a new task is counted and unmarked, as in the machine |
| TaskRuntime.NativeRuntime.Finish | micai/src/rt_conc.c:59-72 | a task that ends is marked, uncounted, and wakes everyone, as in the machine |
| TaskRuntime.NativeRuntime.Close | micai/src/rt_conc.c:169-174 | closing marks the channel and wakes everyone, as in the machine |
| TaskRuntime.InterpreterRuntime.WaitThen | micai/src/conc.rs:64-83 | checking and acting are one critical section: a send waits exactly on an open, sized, full channel, a receive on an open, empty one, a join on a task that is not done; and it is a step of the machine |
| TaskRuntime.InterpreterRuntime.ActAndWake | micai/src/interp.rs:2312-2379 | a send or receive under the lock changes its queue as the machine does, and an attempt on a closed channel wakes everyone before it fails |
| TaskRuntime.InterpreterRuntime.WakeUp | micai/src/conc.rs:74-82 | a wake-up is one step of the machine: the count is left if the epoch is the one remembered, then the test comes again |
| TaskRuntime.InterpreterRuntime.Spawn | micai/src/conc.rs:111-126 | a new task is counted and unmarked, as in the machine |
| TaskRuntime.InterpreterRuntime.Finish | micai/src/interp.rs:2302-2306 | marking a task done wakes everyone while that task is still live, as in the machine |
| TaskRuntime.InterpreterRuntime.Leave | micai/src/conc.rs:129-133 | a task that leaves is uncounted and wakes everyone, as in the machine |
| TaskRuntime.InterpreterRuntime.Close | micai/src/interp.rs:2396-2399 | closing marks the channel and wakes everyone, as in the machine |
| ClosureTheorems.FreeNamesAreEnough | micai/src/interp.rs:255-277 | a closure called with anything does the same holding only the free names of its function as holding every local in sight: results, faults, contracts, nested closures, self-recursion and endless runs alike |
| ClosureTheorems.SameAnswer | micai/src/ast.rs:266-285 | a whole program gives the same answer or the same fault under either rule |
| ClosureTheorems.OrdinaryNamesAreTame | micai/src/ast.rs:269-277 | a function in which, at any depth, no nested function's name begins like the parser's names for anonymous ones is one the rule is right for |
| ClosureTheorems.OrdinaryNameIsKnown | micai/src/ast.rs:269-277 | a function whose name is ordinary never lists its own name |
| ClosureTheorems.FreeNamesAreEnoughForOrdinary | micai/src/interp.rs:255-277 | the first theorem for every program in which nested functions have ordinary names |
| ClosureTheorems.SafeNames | micai/src/ast.rs:244-255 | nested functions may have a name, in every program, without the two rules coming apart if and only if it does not begin with `λ` |
| ClosureTheorems.OwnName | micai/src/interp.rs:1811-1825 | inside a nested function its own name is found if and only if the name does not begin with `λ` |
| ClosureTheorems.LambdaNamesMislead | micai/src/ast.rs:248-255 | for every name with a leading `λ`, a program with a nested function of that name loses a local under the free-name rule that it finds under the other |
| ClosureTheorems.HoldsJustTheFreeNames | micai/src/interp.rs:255-263 | a new closure holds exactly the names that occur free in its function and mean something where it is made, with the values of the innermost scopes that have them then |
| ClosureTheorems.CopiesAtCreation | micai/src/interp.rs:255-263 | a closure keeps the value a name had when it was made: assigning to the name later does not reach it |
| ClosureNames.FreeNamesOccurFree | micai/src/ast.rs:266-286 | the names listed are those that occur free as a textbook has it: not a parameter, not declared before in a block around, not bound by a pattern, a loop, a catch or an arena around |
| ClosureNames.BlockMentionsIff | micai/src/ast.rs:306-312 | in a block: free in some statement and declared by none before it |
| ClosureNames.StmtMentionsIff | micai/src/ast.rs:322-399 | in a statement of any kind |
| ClosureCapture.FreeNamesAre | micai/src/ast.rs:269-286 | the names listed are the outside names mentioned, each once |
| ClosureCapture.CallAlike | micai/src/interp.rs:1724-1951 | functions that agree on their free names, called with corresponding arguments, come to corresponding ends |
| ClosureCapture.EvalAlike | micai/src/interp.rs:1140-1329 | expressions evaluated in corresponding frames come to corresponding values or the same fault |
| ClosureCapture.StepAlike | micai/src/interp.rs:635-1071 | statements run in corresponding frames stop alike and leave corresponding frames, and what they bind on paper is bound in fact |
| ClosureCapture.EvalHandledAlike | micai/src/interp.rs:602-632 | an expression with its `catch`: the error carried, the block up to its last expression, and that expression's value come out alike, and so does the frame |
| ClosureCapture.UptoLastAlike | micai/src/interp.rs:613-628 | a `catch` block run up to its last expression, and then the expression, with all that the block has bound |
| ClosureCapture.LeavingStops | micai/src/ast.rs:571-580 | a block that ends with `return`, `break` or `continue`, or with an `if` and `else` whose branches all do, never runs to its end |
| ClosureCapture.EqValueAlike | micai/src/value.rs:318-357 | corresponding values compare alike, dictionaries in any order included |
| ClosureCapture.ReprAlike | micai/src/value.rs:166-218 | corresponding values are shown alike, so f-strings cannot tell them apart |
| ClosureCapture.ClosureAlike | micai/src/interp.rs:255-263 | closures made in corresponding frames correspond, under either rule |
| ClosureCapture.GatherKeeps | micai/src/ast.rs:301-305 | collecting names loses none and invents none |
| ClosureNames.MentionsIff | micai/src/ast.rs:298-305 | what an expression mentions besides the bound names is what occurs free in it and is not bound |
| ClosureFreeVars.NamesOf | micai/src/ast.rs:269-286 | the walk that pushes and pops scopes and appends to its list returns the outside names, in order of first mention |
| ClosureFreeVars.FreeVars.Stmt | micai/src/ast.rs:322-399 | one statement of any kind: the names it mentions are added, the enclosing scopes stay, and the innermost gains what the statement binds |
| ClosureFreeVars.FreeVars.Expr | micai/src/ast.rs:400-445 | one expression: the outside names it mentions are added and no scope changes |
| ClosureFreeVars.FreeVars.Catch | micai/src/ast.rs:313-321 | a `catch` block adds what it mentions besides the error's name and its own, and leaves the scopes as they were |
| ClosureFreeVars.FreeVars.Block | micai/src/ast.rs:306-312 | a block's own names are gone after it |
| ClosureLaws.ArgumentsByPlace | micai/src/interp.rs:1748-1777 | each parameter gets the argument at its place; of one named twice, the last counts |
| ClosureLaws.ParameterIsArgument | micai/src/interp.rs:1748-1777 | a function that returns its i-th parameter gives the i-th argument, whatever it has captured |
| ClosureLaws.OwnNameComesFirst | micai/src/interp.rs:1811-1821 | inside a closure its own name means the closure, even if it has captured something of that name |
| ClosureLaws.PostconditionJudges | micai/src/interp.rs:1887-1925 | a postcondition judges the result by the locals as the body leaves them |
| ClosureLaws.IntegerArithmetic | micai/src/interp.rs:3435-3437 | sums, differences and products are the one integer of 64 bits that is equal to the exact one up to multiples of 2^64 |
| ClosureLaws.IntegerOrder | micai/src/interp.rs:3375-3381 | comparisons of integers are those of numbers |
| ClosureLaws.TextOps | micai/src/interp.rs:3481-3493 | texts are joined in order, and compared at the first character where they differ, a beginning being less |
| ClosureLaws.OthersAreRefused | micai/src/interp.rs:3506-3513 | no other values can be added, subtracted, multiplied or put in order |
| ClosureLaws.LeftFirst | micai/src/interp.rs:1261-1295 | the left side is worked out first, what stops it stops the whole, and `and` and `or` leave the right side alone where the left one decides |
| ClosureLaws.EqualIff | micai/src/value.rs:318-357 | values without functions and dictionaries are equal exactly when they are the same |
| ClosureLaws.DictsEqualIff | micai/src/value.rs:340-345 | dictionaries are equal exactly when they have as many pairs and each pair of the one is in the other |
| ClosureLaws.FirstKeyCounts | micai/src/interp.rs:1368-1375 | indexing a dictionary gives the value of the first equal key, or none |
| ClosureLaws.Indexing | micai/src/interp.rs:1331-1382 | lists and texts are indexed from 0, and refused below it and from their length on |
| ClosureLaws.LiteralsHold | micai/src/interp.rs:1216-1230 | a tuple literal has its parts by number, a dictionary literal its value at its key |
| ClosureLaws.ShownInDecimal | micai/src/value.rs:175-177 | integers are shown in decimal, without leading zeros |
| ClosureLaws.ShownPlainly | micai/src/value.rs:166-181 | text is shown in quotes, with a backslash before quotes and backslashes only, and displayed as it is |
| ClosureLaws.OneMoreShown | micai/src/value.rs:182-189 | items are shown in order with commas between them, in the brackets of what holds them |
| ClosureLaws.InnermostWins | micai/src/interp.rs:234-254 | a name means its value in the innermost scope that has it, or what was captured |
| ClosureLaws.AssignChangesOne | micai/src/interp.rs:279-287 | assigning changes what one name means, if it means anything, and no other |
| ClosureLaws.CallByName | micai/src/interp.rs:1619-1655 | a call by name takes a local function first; a local that is no function hides no function of the program |
| ClosureLaws.FirstTrueArm | micai/src/interp.rs:832-854 | of the arms of an `if`, the first whose condition is true runs |
| ClosureLaws.FirstFittingCase | micai/src/interp.rs:1018-1041 | of the cases of a `match`, the first that fits runs, with the values of its names by place; none fitting is a fault |
| ClosureLaws.LoopCopiesText | micai/src/interp.rs:973-1015 | `for c in s: t += c` appends the text to `t`, character by character and in order, and changes nothing else |
| ClosureLaws.LoopCopiesItems | micai/src/interp.rs:973-1015 | the same for the items of a list |
| ClosureLaws.LoopCopiesPairs | micai/src/interp.rs:952-1015 | the same for the keys and values of a dictionary |
| ClosureLaws.LoopCounts | micai/src/interp.rs:856-877 | `while i < n: i += 1` ends with `i` at `n` and everything else as it was |
| ClosureLaws.LeavingLoops | micai/src/interp.rs:994-1015 | `continue` goes on with the next round, `break` ends the loop, `return` leaves it |
| ClosureLaws.TryLeaves | micai/src/interp.rs:1312-1319 | `try` hands an error to whoever called the function, at once, and is the value otherwise |
| ClosureLaws.CatchGivesTheCarried | micai/src/interp.rs:602-632 | in `let n = e catch c: c` an error gives what it carries, and any other value itself |
| Dict.Table.Set | micai/src/cgen.rs:864-890 | setting a key does to the table what it does to the interpreter's list of pairs: the old place with the new value, or the end |
| Dict.Table.FindKey | micai/src/cgen.rs:852-862 | probing ends and finds the position of the key in insertion order, or nothing, for every hash function |
| Dict.Table.Get | micai/src/cgen.rs:895-898 | the value of the key in the interpreter's list of pairs, or nothing |
| Dict.Table.Reindex | micai/src/cgen.rs:838-849 | filling a larger index leaves every entry reachable from its own slot, with at most half of the slots in use |
| Dict.Table.Append | micai/src/cgen.rs:876-889 | a new key goes to the end, and is indexed whether or not the index grew |
| Dict.Table.EmptySlot | micai/src/cgen.rs:846 | a probe over an index that is not full reaches an empty slot, and no empty slot lies before it |
| Dict.Table.Copy | micai/src/cgen.rs:918-933 | a copy has the same entries and shares no memory |
| Dict.Equal | micai/src/cgen.rs:3605-3614 | equal lengths and a one-way comparison decide equality of the two maps, whatever their orders |
| Dict.AllAgree | micai/src/cgen.rs:3605-3614 | two lists of distinct keys of one length, the first found in the second, are the same map |
| Dict.PutIsUpdate | micai/src/interp.rs:2648-2658 | setting in the list of pairs is map update |
| Dict.FindIsLookup | micai/src/interp.rs:2669-2674 | the first pair with a key is the map's value for it |
| Dict.PutKeeps | micai/src/interp.rs:2648-2658 | keys stay distinct and keep their order, and the length grows only for a new key |
| Dict.MapSize | micai/src/interp.rs:2647-2658 | the length of a list of pairs with distinct keys is the number of keys |
| Dict.PutSlot | micai/src/cgen.rs:885-888 | indexing one more entry at the first empty slot keeps every earlier entry reachable |
| Dict.NotThere | micai/src/cgen.rs:856-861 | an empty slot on the way proves that the key is not there |
| MergeSort.SortKeyed | micai/src/cgen.rs:654-676 | the list is rearranged by an order that takes each place once and is sorted as numbers or as bytes, said by comparing keys, and by old place where keys are equal |
| MergeSort.StableIsSorted | micai/src/cgen.rs:648-652 | in a stable order, of any two places the earlier has the smaller integer, or a text that is a beginning of the other or has the smaller byte where they first differ; where keys are equal, the earlier place |
| MergeSort.StrCmpIs | micai/src/cgen.rs:245-250 | the comparison of strings says which is a beginning of the other, or has the smaller byte at the first place where they differ |
| MergeSort.StableOrderUnique | micai/src/interp.rs:2245-2261 | there is only one such order, so the result is that of any stable sort by the same keys |
| MergeSort.MergeIsRun | micai/src/cgen.rs:663-667 | merging two neighbouring sorted stretches, the right one only when strictly less, gives one stable sorted stretch of the same places |
| MergeSort.MergeRuns | micai/src/cgen.rs:663-667 | the three loops fill the target stretch with the merge and touch nothing else |
| MergeSort.Pass | micai/src/cgen.rs:661-670 | a pass turns runs of width w into runs of width 2w, for every length |
| MergeSort.BeforeTotal | micai/src/cgen.rs:648-652 | of two different places exactly one comes first |
| MergeSort.BeforeTrans | micai/src/cgen.rs:648-652 | the order of places by key and then position is transitive |
| MergeSort.StrCmpTrans | micai/src/cgen.rs:245-250 | the byte-wise comparison of strings is transitive |
| JsonRoundTrip.RoundTrip | micai/src/json.rs:54-328 | for every tree without floats, over all characters and 64-bit integers: parsing what was written gives the tree with repeated keys settled, so the same tree if and only if no dictionary has a key twice |
| JsonRoundTrip.ReadsJustTheValue | micai/src/json.rs:86-122 | reading at a written value followed by anything that does not run on takes exactly that value |
| JsonRoundTrip.AcceptedTextSettles | micai/src/json.rs:54-62 | for any accepted text, writing the tree and reading it again changes nothing |
| JsonRoundTrip.ReadIsDistinct | micai/src/json.rs:146-150 | whatever is accepted has no key twice at any depth |
| JsonRoundTrip.TextIsClean | micai/src/json.rs:276-290 | no control character is ever written raw (section 7 of RFC 8259) |
| JsonRoundTrip.EscapesAre | micai/src/json.rs:276-291 | which characters are written otherwise than as themselves, and how, by their codes |
| JsonRoundTrip.OneMoreItem | micai/src/json.rs:300-309 | elements are written in order with a comma and nothing else between them |
| JsonRoundTrip.OneMoreMember | micai/src/json.rs:310-321 | members are written in order as a quoted key, a colon and a value, with commas between them |
| JsonRoundTrip.ReadsBack | micai/src/json.rs:86-274 | wherever a value is spelled in a text, reading there gives it and stops right behind it |
| JsonRoundTrip.CharsRead | micai/src/json.rs:190-237 | a spelled string is read back character by character, `\u00xx` escapes included |
| JsonRoundTrip.SignedOfShown | micai/src/json.rs:239-273 | the decimal text of an integer reads as that integer, over the whole 64-bit range |
| JsonRoundTrip.PutKeepsOnce | micai/src/json.rs:146-150 | a key is put in its old place or at the end, never twice |
| JsonRoundTrip.SettledIsDistinct | micai/src/json.rs:146-150 | settling leaves no key twice |
| JsonSpelling.Spelled | micai/src/json.rs:292-322 | what the writer emits spells the value in place, and ends where its text ends |
| JsonGrammar.ReadIffSpelled | micai/src/json.rs:54-188 | a text is accepted as a value if and only if the grammar, which knows no reader, spells it so: white space of any length around values, keys, commas and colons, every escape, numbers in every form |
| JsonGrammar.NodeReads | micai/src/json.rs:72-188 | what is spelled anywhere in a text is read up to its end |
| JsonGrammar.ValueFound | micai/src/json.rs:72-188 | what is read anywhere in a text is spelled there, ending where the reader stopped |
| JsonGrammar.SettlesIff | micai/src/json.rs:144-148 | a repeated key stays in its first place and has its last value, and that is the one way to settle the pairs |
| JsonLexemes.NumeralIs | micai/src/json.rs:239-273 | a number reads as the integer its digits stand for when it is whole and fits 64 bits, else as a float if it has digits, perhaps a point and perhaps an exponent; nothing else is a number |
| JsonLexemes.BitsRead | micai/src/json.rs:190-237 | characters and escapes in a row, each standing for its own character by listing, are read as the string |
| JsonLexemes.BitsFound | micai/src/json.rs:190-237 | what is read as a string is written in such characters and escapes up to its quote |
| JsonParser.ParseText | micai/src/json.rs:54-62 | on every text the parser, with its cursor and loops, gives a value exactly when the text spells it by the grammar, and the reader's error otherwise |
| JsonParser.Parser.Value | micai/src/json.rs:86-122 | one value from any place: the same value and the same end as the reader's, or the same error |
| JsonParser.Parser.Object | micai/src/json.rs:124-162 | the loop over members, replacing in place, comes to what settling all pairs in order comes to |
| JsonParser.Parser.Array | micai/src/json.rs:164-188 | the loop that pushes elements comes to the list read |
| JsonParser.Parser.String | micai/src/json.rs:190-237 | the loop over characters and escapes comes to the string read |
| JsonParser.Parser.Number | micai/src/json.rs:239-273 | the digits taken, and whether they are an integer, a float or neither |
| JsonParser.Writer.Write | micai/src/json.rs:292-322 | appends the text of the value to the buffer and changes nothing before it |
| JsonParser.Stringify | micai/src/json.rs:324-328 | the text of the value |
| Utf8.ByteMatch | micai/src/cgen.rs:780-786 | in well-formed UTF-8 a match of a non-empty needle's bytes begins on a character and is a match of characters there |
| Utf8.BoundaryIsPos | micai/src/cgen.rs:166-170 | every byte that continues no character is the start of the character that the count before it says |
| Utf8.PrefixDecodes | micai/src/cgen.rs:780-786 | if one encoded text begins with another, so do the texts |
| Utf8.Decode1 | micai/src/cgen.rs:6616-6623 | decoding undoes encoding, for every character (section 3 of RFC 3629) |
| Utf8.EncodedByTable | micai/src/cgen.rs:6631-6654 | every character is encoded by the table of section 4 of RFC 3629: the shortest form, with the bits in sixes |
| Utf8.PrefixFree | micai/src/cgen.rs:6636-6650 | no character's bytes begin with another's |
| Utf8.LeadsOfAll | micai/src/cgen.rs:166-170 | counting the bytes that continue nothing counts the characters |
| Utf8Strings.StrFind | micai/src/cgen.rs:780-786 | the character index of the first match of characters, 0 for an empty needle, -1 for none |
| Utf8Strings.StrEq | micai/src/cgen.rs:241-243 | strings are equal exactly when their texts are |
| Utf8Strings.StrSlice | micai/src/cgen.rs:788-796 | the encoding of just the characters whose index is at least the lower bound and below the upper one, in order |
| Utf8Strings.StrIndex | micai/src/cgen.rs:963-975 | the one character at the index, or a fault exactly when it is out of range |
| Utf8Strings.CharToByte | micai/src/cgen.rs:179-188 | the byte where a character starts, or the end |
| Utf8Strings.Utf8Step | micai/src/cgen.rs:173-177 | from the start of a character to the start of the next |
| Utf8Strings.Utf8Decode | micai/src/cgen.rs:6610-6629 | the characters of the text, in a buffer that is never overrun |
| Utf8Strings.Utf8Encode | micai/src/cgen.rs:6631-6654 | the encoding of the characters, in a buffer that always has room |
| StringSplit.ReplaceAll | micai/src/cgen.rs:1031-1045 | replacing is splitting and joining with the new text; the buffer sized by the counting pass is filled from end to end and no further |
| StringSplit.JoinPieces | micai/src/cgen.rs:978-1006 | joining the pieces of a split with the separator gives the text back |
| StringSplit.PiecesAreClean | micai/src/cgen.rs:978-992 | no piece contains the separator |
| StringSplit.ReplacedSize | micai/src/cgen.rs:1033-1035 | the size worked out by counting matches is the size of the result |
| StringSplit.Split | micai/src/cgen.rs:978-992 | the scanning loop cuts at every first match and goes on behind it; an empty separator leaves the text whole |
| StringSplit.JoinStrings | micai/src/cgen.rs:994-1006 | measures, then fills a buffer of exactly that size with the joined text |
| StringSplit.SplitOfBytes | micai/src/cgen.rs:978-992 | splitting the bytes is splitting the characters: no piece cuts a character |
| StringSplit.ReplaceOfBytes | micai/src/cgen.rs:1031-1045 | replacing in the bytes is replacing in the characters |
| StringSplit.FindFrom | micai/src/cgen.rs:1016-1021 | the first match from a place on, or that there is none |
| TypeCycles.PassMakesLayoutSound | micai/src/cgen.rs:2160-2178 | from the program alone: after the one boxing pass no type contains itself by value if and only if the program has no circle of direct fields, and each of its circles with an array on it has a step that only fields closing a circle first can make |
| TypeCycles.BoxedIff | micai/src/cgen.rs:2160-2178 | which fields get a box, without running the pass: exactly those that close a circle without arrays that goes through none of the `?T` and `!T` fields before them |
| TypeCycles.OrderMatters | micai/src/cgen.rs:2160-2178 | one program in two orders of its structs: in one the layout is sound, in the other a struct contains itself |
| TypeCycles.BoxedByKind | micai/src/cgen.rs:2160-2178 | after the pass every `?T` and `!T` field is in a box or has no array-free way back to its struct, and no field of another kind is in a box |
| TypeCycles.SelfIsBoxed | micai/src/cgen.rs:2160-2178 | a struct with a `?` or a `!` of itself contains itself before the pass and not after it |
| TypeCycles.ContentsAre | micai/src/cgen.rs:1971-2019 | what a type holds by value, kind by kind: a struct its unboxed fields, an enum what is no enum, the rest their parts |
| TypeCycles.LayoutSoundIff | micai/src/cgen.rs:2160-2178 | the same in terms of what is left: no circle of direct fields, and none with an array on it once just the fields that close a circle first are in boxes |
| TypeCycles.NoSoftCircle | micai/src/cgen.rs:2160-2178 | for every program: a by-value circle left after the pass is one of direct fields or has an array on it |
| TypeCycles.ArraysHideCircles | micai/src/cgen.rs:1971-2019 | the search does not look into arrays: a `?T` field on a circle through an array of structs stays unboxed and the struct contains itself |
| TypeLayout.ReachesIffLeads | micai/src/cgen.rs:1971-2019 | the search with its set of seen types finds the target exactly when a by-value way leads there, cycles and all |
| TypeLayout.PassIsEnough | micai/src/cgen.rs:2160-2178 | one pass is enough: no box added later makes an earlier field need one |
| TypeLayout.BoxesAreNeeded | micai/src/cgen.rs:2160-2178 | only fields that close a circle in the program get a box |
| TypeLayout.BoxFields | micai/src/cgen.rs:2160-2178 | the nested loops over structs and fields box what looking at the fields in order, each with the boxes so far, boxes |
| TypeOrder.OrderedTdefs | micai/src/cgen.rs:1944-1968 | every definition is emitted exactly once, and with no circle among them after all that it holds by value |
| TypeOrder.Emission.Visit | micai/src/cgen.rs:1948-1963 | a visit emits its definition after what it holds, keeps visits under way as they are, and never takes back what is emitted |
| TypeOrder.LastCounts | micai/src/cgen.rs:1944-1945 | a name stands for the last definition of that name |
| TypeOrder.LayoutCanBeEmitted | micai/src/cgen.rs:1935-1968 | boxing and ordering together: the definitions of any types of the boxed program form no circle if and only if the program has no circle of direct fields and none with an array on it that goes through no field closing a circle first |
| TypeOrder.SoundIsAcyclic | micai/src/cgen.rs:1944-1968 | definitions built from types that do not contain themselves form no circle, each depending on the types it holds by value |
| TypeOrder.CircleIsCyclic | micai/src/cgen.rs:1944-1968 | a type that contains itself gives definitions in a circle, through however many dimensions of arrays |
| Pointers.Heap.At | micai/src/cgen.rs:391-406 | after any history, an access through a pointer is allowed exactly when its block is live and the bytes lie inside it, and leads to those bytes; else the fault says which |
| Pointers.Add | micai/src/cgen.rs:408 | adding to a pointer moves its offset and keeps its block and generation |
| Pointers.Heap.Store | micai/src/cgen.rs:391-406 | an allowed write changes its own bytes and nothing else: no other block, no guard; a refused one changes nothing |
| Pointers.Heap.Free | micai/src/cgen.rs:375-385 | a free is done exactly for the first address of a live block outside arenas; each other case is refused with its own reason, and no other block changes |
| Pointers.Heap.Alloc | micai/src/cgen.rs:355-362 | a new live block of its size behind a guard of 24 bytes, zeroed, with a generation of its own, in memory that no block had |
| Pointers.Heap.ArenaNew | micai/src/cgen.rs:305 | a new arena has no blocks and changes none |
| Pointers.Heap.ArenaAlloc | micai/src/cgen.rs:364-371 | a new live block inside the newest chunk of the arena; every block there was keeps its bytes |
| Pointers.Heap.MoreRoom | micai/src/cgen.rs:307-317 | the newest chunk has room: as it is, or a new one of 16 KiB, of twice the last, or as large as asked if that is more; no chunk overlaps another |
| Pointers.Heap.ArenaDrop | micai/src/cgen.rs:327-343 | all blocks of the arena are dead afterwards, and every other block keeps its state and its bytes |
| Pointers.BlocksApart | micai/src/cgen.rs:307-321 | two blocks never share a byte |
| Pointers.FilledGuard | micai/src/cgen.rs:334-338 | a guard overwritten with fill bytes reads as a generation that no pointer has |
| Pointers.WordOfBytes | micai/src/cgen.rs:350-351 | eight bytes written for a word read as that word |
| Layout.Lexer.Run | micai/src/lexer.rs:234-287 | for every text the loops put out the tokens of its lines laid out one after the other, or stop with the first fault |
| Layout.TokensAreSound | micai/src/lexer.rs:234-287 | the tokens of a text balance their blocks and never go below zero, end with the one end and keep line ends apart; and no line end is inside brackets if and only if the last line of the text leaves no bracket open |
| Layout.OpenBracketAtEnd | micai/src/lexer.rs:260-278 | the condition is needed: a text with a bracket left open is accepted, and its last line end lies inside it |
| Layout.LinesAreNested | micai/src/lexer.rs:339-361 | the off-side rule: each line is as deep as there are depths that some line before began and no line since undercut; a text whose lines all fit comes out line by line, and its blocks are closed at the end |
| Layout.FirstMisfit | micai/src/lexer.rs:348-359 | the first line that is neither at an open depth nor deeper than all of them is the fault |
| Layout.StackIsOpen | micai/src/lexer.rs:339-347 | the stack of indentations is the rising series of the open depths, all multiples of four |
| Layout.LinesAreMeasured | micai/src/lexer.rs:291-337 | every logical line begins a line of the text, with just that many spaces, a multiple of four, and no tab, comment or line end after them |
| Layout.LineStartIs | micai/src/lexer.rs:291-337 | where a line starts, by characters: a tab after its spaces is a fault, an empty or comment line counts for nothing, and else its spaces are its indentation, by fours |
| Layout.LineGoesOn | micai/src/lexer.rs:234-287 | inside a line, by characters: spaces, carriage returns and comments count for nothing, a line end ends it unless a bracket is open, and brackets open and close |
| Layout.LayIsSound | micai/src/lexer.rs:275-286 | laying lines out after anything sound stays sound |
| Layout.Lexer.LineStart | micai/src/lexer.rs:291-362 | a blank line or one with only a comment counts for nothing; tabs, widths that are no multiple of four and lines that fit nowhere are the faults of the whole text |
| Layout.Lexer.Reindent | micai/src/lexer.rs:339-361 | a line opens one block, or closes down to the block of its own depth; refused exactly when no open block has that depth |
| Layout.Lexer.LexToken | micai/src/lexer.rs:541-563 | a token is put out as it is, and opens or closes a bracket; a closing bracket with nothing to close is passed over |
| Layout.StepsUpto | micai/src/lexer.rs:344-348 | closing blocks deeper than a line stops at that depth exactly when some open block has it |

## Left out

- RegexMachine.MatchAt: the cap on steps is a parameter (the source has 2 000 000), so every theorem holds for every cap; the C mirror's limit of 64 ranges in a class is not modelled.
- RegexPrinting.WrittenPatternIsRead: `Writable` leaves out classes without ranges, which no pattern spells, and class ranges that begin with `\`, `]`, `^` or `-` or end with `]`, which can be spelled in some places only or nowhere; `ReadIffDerived` covers all of them.
- RegexExact.PatternFoundIff: the sufficient cap is a bound computed from the pattern and the input, not the exact number of steps.
- RegexTheorems.SafeMatchAt: the sufficient cap is a bound computed from the tree and the input, not the exact number of steps.
- RegexCompiler.Compile: errors are told apart by kind; their texts and positions are not modelled.
- TaskSafety.ReachableGood: counters are unbounded integers; channel element values are integers; failing to start a thread, printing and exit codes are left out.
- TaskSafety.StuckIsReported: speaks of schedules in which each signalled waiter wakes; no fairness of the operating system is claimed.
- TaskRuntime.NativeRuntime.ChanSend: where each thread is, which no runtime stores, is ghost state; handing values over between threads by copying is left out.
- ClosureTheorems.FreeNamesAreEnough: operators other than `+ - * == != < <= and or not`, floats, structs and methods, `inout`, named arguments, built-in functions but `error`, ranges, format specs and assignment to items and fields are left out; lists and dictionaries are values here, so what sharing them lets one see is not modelled, and a task is the closure it runs. Frames are values here, not updated in place.
- ClosureCapture.EvalAlike: the forms of expression just named are left out.
- ClosureCapture.StepAlike: assignment to items and fields, `exit` and the printing of values are left out.
- ClosureTheorems.OrdinaryNamesAreTame: besides the names, `Checked` has what the type checker demands of `let x = e catch e:`, that the block ends with a value or leaves; `exit` is left out of the ways to leave.
- ClosureCapture.CallAlike: evaluation is bounded in depth by fuel; a run that never ends is one that is out of fuel at every fuel, and both sides are so together.
- Dict.Table.Set: the hash is an arbitrary function, so nothing is said about speed; running out of memory, dictionary literals that repeat a key (where the two sides differ) and the lists that `keys` returns are left out.
- MergeSort.SortKeyed: float keys are left out, since with NaN they are not totally ordered; keys are given, and calls that compute them are not modelled.
- JsonRoundTrip.RoundTrip: floats are kept as the text they were read from and the theorem is about trees without them.
- JsonParser.Parser.String: `\u` escapes for surrogates become U+FFFD as in the interpreter; the C mirror is not modelled. Error texts are kinds only.
- Utf8Strings.StrFind: strings are well-formed UTF-8; masks and shifts of bytes are written as remainder and division; malformed bytes are left out.
- StringSplit.ReplaceAll: 64-bit overflow of sizes is left out, and so are the interpreter's answers for an empty separator, which differ from the C runtime's.
- TypeCycles.PassMakesLayoutSound: generic structs, structs from C headers and pointers to C are plain types here.
- TypeOrder.OrderedTdefs: a definition is its name and the names it depends on; its C text is left out.
- Pointers.Heap.At: pointers are null or come from allocations of this heap; foreign pointers, null plus an offset and negative arena sizes are left out, positions do not overflow, the generation counter stays below the fill value, and only debug builds are modelled.
- Pointers.Heap.Alloc: fresh memory goes behind all memory there was; where the C library puts it, chunk headers and alignment of addresses are left out.
- Layout.Lexer.Run: what a token other than a line end looks like is left to a function `scan`, which is arbitrary but moves on; line and column numbers, strings that span lines inside one token and error texts are left out.
- The C mirrors of the regex compiler and machine and of the JSON reader, which follow the Rust code line by line.
- Whole-program equivalence of the interpreter and the emitted C; the code does not support it, since operands that contain calls are not always pinned and `range` evaluates its end first.
- `needs_copy`, whose memo depends on the order of mutually recursive structs.
- The type checker, name resolution (`ns.rs`), case folding, the formatter, the debugger and the language server.
- Files, time, processes, the network, clang and the header cache.
- Floating-point arithmetic and printing.
