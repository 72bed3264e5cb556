# Models and proofs for a collection of Go components

This project models independent components of the repository in Dafny and proves properties of them.
`dafny verify dfyconfig.toml` checks everything. Each component has its own modules:

| component | modules |
|---|---|
| `keylock`: locks on several keys with hand-off and cancellation | KeyLockState, KeyLock |
| `iprange`: lexer, table-driven parser, CIDR blocks, expansion | IpGrammar, IpAutomaton, IpDrive, IpSound, IpComplete, IpTheorems, IpLexer, IpParser, IpRoundTrip, IpMeaning, Cidr, IpRange |
| `externalsort`: lines over arbitrary reads, merging, sorting files | TextLines, LineIO, MergeOrder, ExternalSort |
| `pubsub`: subscribers behind growing buffers | PubSubPipe, PubSubState, PubSubSafe, PubSubCalls, PubSubProgress, PubSubEnds, PubSubEffort, PubSub |
| `ratelimit`: tokens returned by timers | RateLimitState, RateLimitLeftovers, RateLimitCalls, RateLimit |
| `distbuild/pkg/artifact`: the artifact cache | CacheState, Cache |
| `retryupdate`: optimistic updates through a versioned store | RetryUpdate |
| `hogwarts`: topological order | Hogwarts |
| `tabletest`: durations on int64 | DurationText, Duration, DurationLaws |
| `utf8/reverse`: reversing by runes | Utf8, Reverse |
| `lrucache`: list and map | LruHistory, LruCache |
| `forth`: words bound when defined | ForthWords, ForthMemory, Forth, ForthLaws |

Common, Decimals, Seqs and Sorting hold what the others share.

Concurrent components are state machines over their mutex sections, channel operations and file system
calls; every interleaving is a run. Beside the state machine stands a class with the component's fields,
whose methods are the sections and are proved to be its steps. Sequential components are methods and
loops as in the original, proved against functions about which the lemmas speak.

What the environment does is a parameter. Streams come with a script of read sizes, ends of file and
failures, so that all ways of cutting the input are covered. The key-value store comes with a script of
other clients' writes and of requests dropped or answered in vain. The clock and the runtime's timers are
steps that may happen at any time they are due, in any order. `strconv.Atoi` and `strings.ToLower` in
forth, and the floating point product of a fraction in durations, are function parameters; the latter is
only known to lie between zero and one unit. `container/heap`, `container/list`, `sort` and `slices` are
represented by what they promise, `unicode/utf8` by its algorithm.

Some behaviour of the code that its documentation does not mention, and that the model keeps:

- A prefix above 32 makes `net.CIDRMask` return nil and crashes the parser (`iprange/y.go:492-496`); the crash
  is an outcome of its own.
- The lexer reads NUL and numbers of more than 32 bits as the end of input, so text behind them is ignored
  (`iprange/lex.go:26-27`, `iprange/lex.go:57-61`); a NUL right after a number vanishes instead. Numbers are taken mod 256. The
  private-use characters U+E000 and U+E002 are lexed as the error token and as a number with the value
  read last (`iprange/y.go:274-279`).
- No state of the parser shifts the error token, so error recovery always gives up at once
  (`iprange/y.go:411-427`).
- Expanding an empty list of ranges indexes an empty slice (`iprange/funcs.go:87-88`); a parsed list is never empty.
- Durations whose magnitude is exactly 2^63 are refused with either sign (`tabletest/parse_duration.go:24-28`).
- In forth a row that fails halfway overwrites entries of the stack it started from
  (`forth/eval.go:27`, `forth/eval.go:75`), because the slices share an array: after `1 2` the row `+ foo` fails and
  leaves 3 2. ForthMemory.EntryAfterRow says exactly which entries change and to what.
- A timer callback in ratelimit removes the first entry of the queue, not its own (`ratelimit/ratelimit.go:83-84`),
  so shutdown can leave a timer running (RateLimitLeftovers.AnArmedTimerCanBeLeft). This happens exactly when
  another timer's callback has removed its entry, and then the timer is due
  (RateLimitLeftovers.ShutdownLeavesExactly). Its callback is proved harmless (RateLimitState.CallbackIsSafe).

## Model

| member | source | states |
|---|---|---|
| KeyLockState.RunsAreSafe | keylock/keylock.go:92-154 | in every state of every run of the mutex sections no two owners share a key, and every queued request waits for a key somebody owns (no lost wakeup) |
| KeyLockState.StepKeepsInv | keylock/keylock.go:92-154 | each mutex section, cancellation after a grant included, keeps exclusion and leaves nobody queued without reason |
| KeyLockState.GrantAllKeepsExclusion | keylock/keylock.go:76-90 | handing keys over to several waiters in one section never gives a key to two owners |
| KeyLockState.NoDeadlock | keylock/keylock.go:121-128 | while somebody is queued there is an owner of one of its keys, so when no key is owned nobody is queued |
| KeyLockState.QuietRunsDrain | keylock/keylock.go:112-118 | while no request arrives each unlock and cancellation takes away exactly one request, however many waiters it wakes |
| KeyLockState.ProgressIsMonotone | keylock/keylock.go:76-90 | a request only moves from queued to granted to holding until it is gone |
| KeyLockState.GrantedAtMostOnce | keylock/keylock.go:84 | a request is granted at most once, so the buffered send made under the mutex finds its slot empty |
| KeyLockState.RequestStays | keylock/keylock.go:92-128 | a request is kept with its keys until it is cancelled or unlocked; it holds them at once exactly when no owner had any of them |
| KeyLock.KeyLock.constructor | keylock/keylock.go:23-27 | the empty lock manager satisfies the invariant |
| KeyLock.KeyLock.MarkLocked | keylock/keylock.go:29-42 | taking keys keeps the exact accounting: each queued waiter stands once per occurrence under its locked keys in keysNeeded and under its free keys in keysFree, nowhere else, and neededCnt counts its locked occurrences |
| KeyLock.KeyLock.FreeKeys | keylock/keylock.go:44-55 | giving keys back keeps the same accounting and unlocks exactly these keys |
| KeyLock.KeyLock.RemoveWaiter | keylock/keylock.go:57-74 | afterwards this waiter stands in no list, and the accounting of all the others holds |
| KeyLock.RemoveOne | keylock/keylock.go:62-69 | the swap-remove takes away exactly one occurrence of the waiter |
| KeyLock.KeyLock.WakeUp | keylock/keylock.go:76-90 | the hand-offs are those of the state machine: key by key at most one waiter of that key, all of whose keys are free, and none only when there is none |
| KeyLockState.HandOffsExhaust | keylock/keylock.go:77-89 | waking one waiter per freed key is enough: afterwards no request that could be granted wants any of these keys |
| KeyLockState.ReleaseSettles | keylock/keylock.go:114-118 | so giving keys back leaves nobody queued whose keys are all free |
| KeyLock.ZeroMeansFree | keylock/keylock.go:80 | neededCnt is zero exactly when no owner has any of the keys |
| KeyLock.KeyLock.LockKeys | keylock/keylock.go:92-128 | the call returns at once exactly when no owner has any of the keys and holds them, else it is queued for them; the whole invariant holds afterwards |
| KeyLock.KeyLock.Resume | keylock/keylock.go:145-152 | receiving the grant changes only the role of the request |
| KeyLock.KeyLock.Cancel | keylock/keylock.go:131-143 | a cancellation before the grant removes the waiter, one after the grant releases its keys and wakes others |
| KeyLock.KeyLock.Unlock | keylock/keylock.go:112-118 | unlocking is the release step of the state machine |
| Reverse.Reverse | utf8/reverse/reverse.go:10-27 | the bytes written are the encoding of the forward-decoded runes in reverse, and the characters of the text from the last to the first with EF BF BD for each invalid byte, on any input; the length computed beforehand is exactly their number |
| Reverse.GrownLength | utf8/reverse/reverse.go:12-18 | the first loop sums the encoded lengths of the decoded runes |
| Reverse.WriteBackwards | utf8/reverse/reverse.go:20-24 | the second loop writes the encoding of the reversed decoding |
| Reverse.BackwardIsForward | utf8/reverse/reverse.go:20-24 | decoding from the end yields exactly the runes decoded from the start, in reverse, also on invalid bytes |
| Reverse.SameLast | utf8/reverse/reverse.go:21 | the bytes before the last segment do not influence what is decoded from the back |
| Reverse.ReversedLength | utf8/reverse/reverse.go:14-18 | the reversed text is as long as the sum of the rune lengths |
| Reverse.ReversedDecodes | utf8/reverse/reverse.go:10-27 | the reversed text decodes to the reversed runes |
| Reverse.ReverseTwice | utf8/reverse/reverse.go:10-27 | reversing twice gives the text back if and only if it is valid UTF-8 |
| Reverse.ReversedIsBackwards | utf8/reverse/reverse.go:10-27 | told without runes: character by character from the back, each with its bytes in order, each byte that is part of none replaced by EF BF BD |
| Utf8.DecodeAfterEncode | utf8/reverse/reverse.go:21-22 | decoding undoes encoding of every scalar value, whatever follows (sections 3 and 4 of RFC 3629) |
| Utf8.EncodeAfterDecode | utf8/reverse/reverse.go:21-22 | encoding undoes decoding wherever decoding succeeded |
| Utf8.EncodingsAreChars | utf8/reverse/reverse.go:21 | what decodes without error is exactly a character by the syntax of section 4 of RFC 3629 |
| Utf8.DecodeAdvances | utf8/reverse/reverse.go:21 | decoding advances by such characters, and by one byte where there is none |
| IpRange.Turn | iprange/funcs.go:47-59 | one turn of the odometer, in place, moves to the mask with the next mixed-radix rank |
| IpRange.StreamRange | iprange/funcs.go:11-65 | terminates after exactly the product of the wheel sizes, the k-th address having rank k |
| IpRange.EmittedIsRange | iprange/funcs.go:35-60 | the odometer emits every address of the range exactly once and nothing else |
| IpRange.RankIsInjective | iprange/funcs.go:33-59 | different offsets have different ranks |
| IpRange.Expand | iprange/funcs.go:68-74 | the addresses of a range are the octet-wise product, differences taken mod 256 |
| IpRange.Dedup | iprange/funcs.go:87-93 | from a sorted list, the strictly increasing list of the same addresses |
| IpRange.Normalize | iprange/funcs.go:85-95 | a strictly increasing list with exactly the addresses given |
| IpRange.ExpandList | iprange/funcs.go:77-83 | strictly increasing, and exactly the union of the ranges |
| IpRange.AtMostIsTotal | iprange/sortip.go:21-30 | comparing addresses as big-endian numbers is a total order |
| Cidr.MaskIsBlock | iprange/y.go:492 | the octets of CIDRMask are leading ones |
| Cidr.BlockClears | iprange/y.go:493 | masking an octet clears its low bits |
| Cidr.Block32Shape | iprange/y.go:492-504 | the wrapping sum never carries: Min and Max keep the octets before the split, span a block in it and are free after it |
| Cidr.BlockIsPrefix | iprange/y.go:489-505 | Min and Max bound exactly the addresses that share the first p bits (section 3.1 of RFC 4632), for every p up to 32 |
| Cidr.BlockExpandsInOrder | iprange/funcs.go:11-74 | expanding a block emits its 2^(32-p) consecutive addresses in ascending order |
| Cidr.SpanIsPow2 | iprange/y.go:494-498 | the block ends 2^(32-p) - 1 above its start |
| IpMeaning.AddressMeaning | iprange/y.go:511-540 | an address without prefix stands for exactly the addresses whose octets match: a number itself, a star all 256, a span from its lower end up to its upper end, past 255 on to 0 when it runs backwards |
| IpMeaning.BlockBounds | iprange/y.go:489-505 | Min and Max of a block bound exactly the addresses whose 32-bit number has the same first p bits |
| IpMeaning.TargetMeaning | iprange/y.go:489-540 | what the expansion of a target contains is exactly what matches it |
| IpMeaning.DenotedStandFor | iprange/y.go:477-488 | the ranges of a list stand one by one, in their order, for its targets |
| IpMeaning.UnionMeaning | iprange/funcs.go:77-83 | so the union that expanding a list emits is the union of what its targets match |
| IpMeaning.OrderIsOctetwise | iprange/sortip.go:21-30 | comparing addresses as numbers is comparing them octet by octet from the left |
| IpAutomaton.ShiftShape | iprange/y.go:344-366 | every shift the tables allow leads to a state reached by that token and standing above the old state |
| IpAutomaton.ReduceShape | iprange/y.go:368-394 | a state reduces one production only, and the end is accepted in one state only |
| IpAutomaton.GotoShape | iprange/y.go:461-473 | the goto tables lead to a state of the reduced nonterminal |
| IpDrive.HandleOnTop | iprange/y.go:442-459 | whenever a production is reduced, the state below its right-hand side is one the production may stand on |
| IpDrive.ReducedIsWF | iprange/y.go:442-541 | a reduction keeps the stack well formed and lowers a level that bounds the reductions between two shifts |
| IpSound.Sound | iprange/y.go:302-542 | whatever the driver accepts has a derivation in the grammar that yields the tokens and denotes the output |
| IpSound.BuildFits | iprange/y.go:475-540 | the action of each production computes what its derivation denotes |
| IpSound.CrashSound | iprange/y.go:489-493 | a crash is reached only at a target with a prefix above 32 after a derivable beginning |
| IpComplete.RunTerm | iprange/y.go:519-540 | every term is shifted and reduced to its octet range |
| IpComplete.RunAddress | iprange/y.go:511-518 | every address is shifted and reduced to its range |
| IpComplete.RunTarget | iprange/y.go:489-510 | every target with a prefix up to 32 is reduced to its range |
| IpComplete.RunCrash | iprange/y.go:489-493 | a target with a prefix above 32 crashes the driver |
| IpComplete.RunResult | iprange/y.go:477-488 | every list of targets is reduced to the list of its ranges |
| IpTheorems.AcceptsExactlyTheGrammar | iprange/y.go:302-542 | the driver accepts a token stream with an output if and only if the grammar derives it and it denotes that output; it always terminates |
| IpTheorems.CrashesExactlyOnBadPrefix | iprange/y.go:489-493 | the driver crashes if and only if a prefix above 32 is reached before any syntax error |
| IpTheorems.NeverEmpty | iprange/y.go:65-71 | a derivation never denotes an empty list, so Parse may take the first range |
| IpLexer.IpLex.ReadRune | iprange/lex.go:66-82 | the next rune, the peeked one first; invalid bytes are skipped |
| IpLexer.IpLex.ReadNumber | iprange/lex.go:36-64 | the longest run of digits, truncated to a byte; a number of more than 32 bits reads as the end of input |
| IpLexer.IpLex.Lex | iprange/lex.go:22-34 | one call of the lexer, as a function of its cursor |
| IpLexer.TokenKind | iprange/y.go:263-290 | the token tables map every character code to one of the grammar's terminals, the end, error or unknown |
| IpParser.PerformAction | iprange/y.go:475-540 | the switch over productions on stack slots computes the production's meaning and panics exactly on production 5 with a prefix above 32 |
| IpParser.Exception | iprange/y.go:376-393 | the exception table accepts at the end of input and nowhere else |
| IpParser.Parser.ShiftTarget | iprange/y.go:352-357 | the action table is consulted as the automaton says |
| IpParser.Parser.TryShift | iprange/y.go:344-366 | shifts exactly when the automaton does, and the stack slots follow |
| IpParser.Parser.GotoState | iprange/y.go:461-473 | the goto table is consulted as the automaton says |
| IpParser.Parser.PopHandle | iprange/y.go:447-540 | popping a right-hand side leaves the slots of the reduced stack |
| IpParser.Parser.Fail | iprange/y.go:396-427 | no state shifts the error token, so recovery pops everything and gives up |
| IpParser.Parser.TakeTurn | iprange/y.go:329-475 | one round of the driver is one step of the automaton, on the rest of the same tokens |
| IpParser.Parser.Parse | iprange/y.go:302-542 | the return code and the lexer's output are the outcome of the automaton on the tokens of the text |
| IpParser.ParseList | iprange/y.go:54-61 | a list is returned if and only if the tokens of the text derive it, and then its ranges stand for the targets of the text; the crash is an outcome of its own |
| IpParser.ParseOne | iprange/y.go:65-71 | the first range of the list, which exists and stands for the first target |
| IpRoundTrip.RoundTrip | iprange/lex.go:22-82 | the rendering of any list of targets is lexed into its tokens and, with prefixes up to 32, derives its ranges |
| IpRoundTrip.RoundTripIsExact | iprange/y.go:54-61 | and derives nothing else, so parsing the rendering gives exactly the ranges back |
| IpRoundTrip.NumText | iprange/lex.go:36-64 | any number written in base ten is lexed to itself modulo 256, and one of more than 32 bits ends the input |
| IpRoundTrip.NulAfterNumberVanishes | iprange/lex.go:54-56 | a NUL byte right after a number disappears |
| IpRoundTrip.NulEndsInput | iprange/lex.go:26-27 | elsewhere a NUL byte ends the input, whatever follows it |
| IpRoundTrip.StrayCharacter | iprange/y.go:263-290 | an ASCII character that is no part of target lists reads as an unknown token |
| IpRoundTrip.OtherCharacter | iprange/y.go:274-279 | beyond ASCII U+E000 reads as the error token and U+E002 as a number with the value read last, all else as unknown |
| IpRoundTrip.InvalidByteIsSkipped | iprange/lex.go:76-79 | a byte that is part of no character is skipped |
| IpRoundTrip.StrayIsRejected | iprange/y.go:396-427 | no list with an unknown or error token in it is derived |
| Hogwarts.GetCourseList | hogwarts/courselist.go:7-48 | panics if and only if the prerequisites form a cycle; otherwise lists every mentioned course once with all its prerequisites before it, repeated entries or not |
| Hogwarts.CountDegrees | hogwarts/courselist.go:8-18 | the counter of each course is the number of entries naming it |
| Hogwarts.Ready | hogwarts/courselist.go:24-28 | the queue starts with exactly the courses whose counter is zero, each once |
| Hogwarts.Discharge | hogwarts/courselist.go:35-40 | taking a course's entries off the counters queues exactly the courses that reach zero, once |
| Hogwarts.OrderedMeansAcyclic | hogwarts/courselist.go:43-47 | a valid order rules out every cycle |
| Hogwarts.BackwardWalkCycles | hogwarts/courselist.go:43-45 | courses that all need one another hide a cycle |
| Hogwarts.StuckMeansCycle | hogwarts/courselist.go:30-45 | when the queue runs dry early, the courses left over contain a cycle |
| Hogwarts.ReversedIsValid | hogwarts/courselist.go:46 | reversing the answer puts prerequisites first |
| LineIO.ParseLine | externalsort/sort.go:24-39 | finds the first byte of an ASCII separator, stepping rune by rune even over runes cut at the end of the buffer |
| LineIO.AsciiStep | externalsort/sort.go:31-35 | no decoding step jumps over an ASCII byte |
| LineIO.File.Read | externalsort/sort.go:59 | an io.Reader: any read size, end of file or a failure with or after the data |
| LineIO.LineReader.ReadLine | externalsort/sort.go:52-98 | delivers the text up to the next newline whatever the read sizes, the rest of the text with EOF, and fails only when the stream does; always terminates |
| LineIO.LineReader.Refill | externalsort/sort.go:59-71 | a refill keeps the text still to be delivered |
| LineIO.LineWriter.Write | externalsort/sort.go:108-119 | appends the line and a newline |
| TextLines.LinesAfterUnlines | externalsort/sort.go:108-119 | lines without newline written one by one read back unchanged |
| TextLines.UnlinesAfterLines | externalsort/sort.go:52-98 | the lines of a text contain no newline and written back give the text, completed by a final newline |
| TextLines.TwoLines | externalsort/sort.go:101-119 | the separator is the character `\n` |
| ExternalSort.LeIsOrder | externalsort/sort.go:133 | comparing strings byte by byte is a total order |
| ExternalSort.LeIsByteOrder | externalsort/sort.go:133 | it is the order by the first byte that differs, a prefix before what it begins |
| ExternalSort.SortAscends | externalsort/sort.go:219 | the sorted arrangement is the one in which this order ascends |
| ExternalSort.NextLine | externalsort/sort.go:156-162 | a reader delivers the lines of its text one by one and then nothing |
| ExternalSort.FirstLines | externalsort/sort.go:155-165 | after the first loop every reader with lines has one in the heap |
| ExternalSort.Round | externalsort/sort.go:167-189 | one round writes a least line, replaces it from its own reader and loses nothing |
| ExternalSort.Merge | externalsort/sort.go:151-192 | writes a permutation of all lines of all readers, in ascending byte order when each reader ascends; only a failing stream makes it fail |
| MergeOrder.PushKeepsEverything | externalsort/sort.go:188 | moving a line from a reader to the heap conserves the multiset of all lines |
| MergeOrder.PopKeepsEverything | externalsort/sort.go:168-175 | writing a popped line conserves it too |
| MergeOrder.PopKeepsOrder | externalsort/sort.go:167-189 | popping a least line keeps what is written sorted and below all that is to come |
| MergeOrder.MergedIsSorted | externalsort/sort.go:151-192 | a sorted permutation of the inputs is the sorted arrangement |
| ExternalSort.SortFile | externalsort/sort.go:197-244 | a file is left with its own lines in ascending byte order and is read from its start |
| ExternalSort.Sort | externalsort/sort.go:194-253 | over distinct files the writer receives all their lines in ascending byte order, and each file holds its own lines so |
| ExternalSort.SortingInParts | externalsort/sort.go:197-250 | sorting each file first does not change the sorted whole |
| Sorting.SortSorts | externalsort/sort.go:219 | the reference for slices.Sort is a sorted permutation |
| Sorting.SortedIsUnique | externalsort/sort.go:219 | and the only one, so any sorting algorithm returns it |
| RateLimitState.RateIsLimited | ratelimit/ratelimit.go:61-96 | at any moment of any run, no half-open window of length interval holds more than maxCount token takes |
| RateLimitState.GrabKeepsSpaced | ratelimit/ratelimit.go:77 | between a take and the maxCount-th after it there is at least the interval |
| RateLimitState.TokensAreConserved | ratelimit/ratelimit.go:77-87 | until shutdown free tokens, taken ones not armed and armed timers are maxCount together, and the queue has one entry per armed timer |
| RateLimitState.CallbackIsSafe | ratelimit/ratelimit.go:80-86 | the timer callback never blocks on the channel under the mutex and never indexes an empty queue, before or after shutdown |
| RateLimitState.StopWaitsForAll | ratelimit/ratelimit.go:98-104 | when Stop has returned no admitted Acquire is unfinished |
| RateLimitState.StopIsReleased | ratelimit/ratelimit.go:46-59 | with all admitted calls counted and nobody left to check, a waiting Stop can return |
| RateLimitState.StaysStopped | ratelimit/ratelimit.go:62-66 | after Stop has set its flag every new Acquire is rejected without a trace |
| RateLimitState.StepKeepsInv | ratelimit/ratelimit.go:46-104 | every step keeps all parts of the invariant |
| RateLimitCalls.AcquireTakesOne | ratelimit/ratelimit.go:61-96 | an Acquire is admitted exactly if no Stop came before; one that is served has taken exactly one token, one that gives up none, for good |
| RateLimitCalls.NobodyStarves | ratelimit/ratelimit.go:61-104 | while some Acquire or Stop is unfinished, a call or a callback can go on, or a timer goes off within the interval; nobody has to give up for that |
| RateLimitLeftovers.ShutdownLeavesExactly | ratelimit/ratelimit.go:46-52 | after shutdown has stopped the timers, one is left running exactly when it was armed and another timer's callback had removed its queue entry; every such timer is due |
| RateLimitLeftovers.NothingDueNothingLeft | ratelimit/ratelimit.go:46-52 | so nothing is left running when no armed timer is due |
| RateLimitLeftovers.AnArmedTimerCanBeLeft | ratelimit/ratelimit.go:80-86 | a run in which shutdown does leave a timer running |
| RateLimitLeftovers.FrontIsDue | ratelimit/ratelimit.go:83-84 | a callback removes its own entry, or that of a timer that is due or has gone off |
| RateLimitLeftovers.DroppedByAnother | ratelimit/ratelimit.go:83-84 | an armed timer without an entry lost it to the callback of another timer |
| RateLimitLeftovers.RunsKeepQueue | ratelimit/ratelimit.go:80-86 | in every run the queue is in the order of the deadlines, and an armed timer without an entry is due |
| RateLimit.Limiter.constructor | ratelimit/ratelimit.go:33-44 | the channel starts with maxCount tokens |
| RateLimit.Limiter.Enter | ratelimit/ratelimit.go:62-68 | admission counts the call or rejects it |
| RateLimit.Limiter.AfterFunc | ratelimit/ratelimit.go:78-87 | arming is one step, the deadline counted from that moment |
| RateLimit.Limiter.CheckTasksCompl | ratelimit/ratelimit.go:46-59 | shutdown stops the queued timers and closes the channel at most once |
| RateLimit.Limiter.Callback | ratelimit/ratelimit.go:80-86 | the callback is one step, its index and its send always allowed |
| CacheState.LocksAreExact | distbuild/pkg/artifact/cache.go:60-109 | no id is locked for reading and writing at once, readLocked counts exactly the outstanding readers, and exactly the ids with a writer are write-locked |
| CacheState.CommitNeverOverwrites | distbuild/pkg/artifact/cache.go:163-166 | commit never renames over an existing artifact, although Stat and the lock check are separate steps among other renames |
| CacheState.PathStays | distbuild/pkg/artifact/cache.go:171-190 | a path returned by Get keeps existing with the same content until its unlock |
| CacheState.OnlyRemoveChanges | distbuild/pkg/artifact/cache.go:138-169 | an artifact in the cache is changed only by the Remove that holds its lock |
| CacheState.CreatorsAreAlone | distbuild/pkg/artifact/cache.go:147-169 | two calls never write the same id, nor one write what another reads |
| CacheState.NoLockLeftBehind | distbuild/pkg/artifact/cache.go:72-80 | when all calls are over no lock is left |
| CacheState.LockKeepsKnows | distbuild/pkg/artifact/cache.go:86-101 | what Stat said under the mutex still holds when the lock is granted |
| CacheState.GetAnswers | distbuild/pkg/artifact/cache.go:176-189 | what os.Stat finds is handed out by Get, with the content the cache holds, and otherwise the read lock is given back |
| CacheState.ReadGrantedExactly | distbuild/pkg/artifact/cache.go:60-70 | a reader is admitted exactly when no call writes the artifact |
| CacheState.WriteGrantedExactly | distbuild/pkg/artifact/cache.go:82-101 | a writer is admitted exactly when no other call reads or writes the artifact and os.Stat allows it |
| CacheState.EraseErases | distbuild/pkg/artifact/cache.go:138-145 | when all of a directory has been removed the artifact is gone, and no other one is touched |
| CacheState.NoCallIsStuck | distbuild/pkg/artifact/cache.go:60-190 | every call can go on by itself, or as soon as the holder of the mutex has, which always can |
| CacheState.StepKeepsInv | distbuild/pkg/artifact/cache.go:60-190 | every step of mutex sections and file system calls keeps the invariant |
| Cache.Cache.constructor | distbuild/pkg/artifact/cache.go:30-58 | no lock and no unfinished artifact at the start |
| Cache.Cache.ReadLock | distbuild/pkg/artifact/cache.go:60-70 | refused exactly while the id is write-locked; otherwise the call goes on to look |
| Cache.Cache.ReadUnlock | distbuild/pkg/artifact/cache.go:72-80 | one reader less, the entry dropped at zero |
| Cache.Cache.WriteLock | distbuild/pkg/artifact/cache.go:87-101 | the second half: the exact error, os.Stat before locks and writers before readers, and a lock granted for creating means that the artifact is not in the cache |
| Cache.Cache.Look | distbuild/pkg/artifact/cache.go:176-189 | what os.Stat finds is returned with its path, a missing artifact is ErrNotFound, any other error is passed on; both give the lock back |
| Cache.Cache.MakeDirectory | distbuild/pkg/artifact/cache.go:152-156 | Create's directory is made, or the error is returned and the lock given back |
| Cache.Cache.Commit | distbuild/pkg/artifact/cache.go:163-166 | the rename finds no artifact in its place; on success exactly what was written is there |
| PubSubSafe.FifoPerSubscriber | pubsub/my_pubsub.go:197-222 | values taken, then those in out, buf and in, are always the values sent to the subscriber, and the callback has had a prefix of them |
| PubSubSafe.NeverSendsOnClosed | pubsub/my_pubsub.go:149-151 | Publish never sends on a closed channel, in any interleaving with Unsubscribe and Close |
| PubSubSafe.NeverClosesTwice | pubsub/my_pubsub.go:32 | no channel is closed twice by Unsubscribe, Close or a late Subscribe |
| PubSubSafe.CloseDelivers | pubsub/my_pubsub.go:157-183 | once Close has returned nil, and ever after, all that was sent to a subscriber that never left was given to its callback |
| PubSubSafe.PublishServesAll | pubsub/my_pubsub.go:145-152 | when Publish returns, each subscriber of its list was sent the message exactly once |
| PubSubCalls.PublishReaches | pubsub/my_pubsub.go:128-155 | whoever is in the list of the subject from the call of Publish until it returns nil was sent the message exactly once |
| PubSubCalls.RefusedOnlyWhenClosing | pubsub/my_pubsub.go:129-141 | Publish and Subscribe are refused only on a bus somebody is closing |
| PubSubCalls.LateCallsAreRefused | pubsub/my_pubsub.go:72-76 | once a Close has begun every new Publish and Subscribe is refused |
| PubSubProgress.SubscribeJoins | pubsub/my_pubsub.go:71-126 | when Subscribe has returned a subscription, it is in the list of its subject until it leaves |
| PubSubProgress.UnsubscribeLeaves | pubsub/my_pubsub.go:24-44 | after Unsubscribe the subscriber is in no list and is marked as gone |
| PubSubProgress.LeavingStopsCallbacks | pubsub/my_pubsub.go:98-110 | from then on no call of its callback begins, whatever was still under way |
| PubSubEnds.NoDeadlock | pubsub/my_pubsub.go:24-222 | in every run, as long as a call is not over, some step that begins no call is possible, over all locks, full channels and goroutines |
| PubSubEffort.RunsEnd | pubsub/my_pubsub.go:24-222 | while no further call begins, a run has at most a computable number of steps left |
| PubSubEffort.AtRestAllIsOver | pubsub/my_pubsub.go:24-222 | and when nothing but new calls is possible, every call is over |
| PubSubSafe.StepKeepsInv | pubsub/my_pubsub.go:24-222 | every step of locks, channels and goroutines keeps the invariant |
| PubSubSafe.SwapRemoveRemoves | pubsub/my_pubsub.go:34-36 | leaving takes away exactly the subscriber and keeps the others once each |
| PubSubPipe.MoveKeepsPipe | pubsub/my_pubsub.go:98-110 | the buffer and the callback's goroutine lose, double and overtake nothing, and end only when empty |
| PubSubPipe.FinishedMeansDelivered | pubsub/my_pubsub.go:171-181 | both goroutines gone: everything sent was taken, and delivered unless the subscriber left |
| PubSub.MyPubSub.constructor | pubsub/my_pubsub.go:61-69 | the empty bus |
| PubSub.MyPubSub.PublishNext | pubsub/my_pubsub.go:149-151 | one send of the loop, on an open channel |
| PubSub.MyPubSub.FindAndRemove | pubsub/my_pubsub.go:29-39 | the loop of Unsubscribe closes and swap-removes exactly the subscriber |
| PubSub.MyPubSub.Unsubscribe | pubsub/my_pubsub.go:24-44 | the section of Unsubscribe is the leaving step |
| PubSub.MyPubSub.CloseSubscribers | pubsub/my_pubsub.go:163-165 | closes every channel of a list, none of them closed before |
| PubSub.MyPubSub.CloseOne | pubsub/my_pubsub.go:161-167 | one queue of Close's outer loop |
| PubSub.MyPubSub.AddSubscriber | pubsub/my_pubsub.go:112-126 | the last section of Subscribe joins the list or, on a closed bus, closes the new channel |
| RetryUpdate.UpdateValue | retryupdate/update.go:12-77 | every Set that took effect stored the update of what the key held at that instant; nil means at least one did; an APIError names the request that was refused, which ends all others; an update error is that of what the last answer showed; when nobody else writes at most one Set is the only change, and a refused update changes nothing; it ends once the disturbances do |
| RetryUpdate.SetUntilSettled | retryupdate/update.go:46-74 | the inner loop: conflicts with its own version count as success, others ask for a new read, a vanished key is created anew, a refusal is reported as that of a Set |
| RetryUpdate.TrySet | retryupdate/update.go:49-50 | one Set, with what it adds to the log of writes that took effect |
| RetryUpdate.OneMore | retryupdate/update.go:49-50 | a Set naming the version of the value it was computed from keeps the log correct |
| RetryUpdate.Server.Get | retryupdate/kvapi/api.go:9-11 | the store answers with the entry at that instant, or the request fails |
| RetryUpdate.Server.Set | retryupdate/kvapi/api.go:25-33 | takes effect only if the old version is the stored one, or zero for an absent key, and may do so with its answer lost |
| Duration.ParseDuration | tabletest/parse_duration.go:80-176 | returns the meaning of the text under wrapping int64, errors exactly for texts without meaning or too large, never a wrapped sum |
| Duration.LeadingInt | tabletest/parse_duration.go:13-31 | fails exactly when the digits exceed 2^63-1, else is their number |
| Duration.DigitFits | tabletest/parse_duration.go:20-28 | the two overflow tests notice exactly the numbers that do not fit |
| Duration.LeadingFraction | tabletest/parse_duration.go:36-62 | keeps as many digits as fit and consumes the rest |
| Duration.ProductFits | tabletest/parse_duration.go:151 | the test before multiplying by the unit is exact |
| Duration.SumFits | tabletest/parse_duration.go:165-166 | a sum of two parts that fit overflows exactly when it turns negative |
| Duration.ParseTerm | tabletest/parse_duration.go:101-170 | one round strictly shortens the text and adds the value of one term, or the text has no meaning |
| DurationText.TermsAreTheReading | tabletest/parse_duration.go:81-174 | a text is a sequence of terms in at most one way, and the greedy reading finds it |
| Duration.MeaningOfSpelling | tabletest/parse_duration.go:75-79 | every sign followed by terms means their signed sum, if it is at most 2^63-1 |
| Duration.SuccessIsSpelled | tabletest/parse_duration.go:80-176 | whatever parses is a sign followed by terms, or by 0 |
| DurationLaws.UnitsMean | tabletest/parse_duration.go:65-73 | the units by their ratios from ns to h, with the three spellings of the microsecond, and no others |
| DurationLaws.OneUnit | tabletest/parse_duration.go:101-170 | a number written in base ten with a unit means that many units, if it fits |
| DurationLaws.ClockTime | tabletest/parse_duration.go:101-170 | hours, minutes and seconds mean their sum in nanoseconds, if it fits |
| DurationLaws.MinusMeaning | tabletest/parse_duration.go:85-92 | a minus in front negates |
| DurationLaws.PlusMeaning | tabletest/parse_duration.go:85-92 | a plus in front changes nothing |
| DurationLaws.LoneNumber | tabletest/parse_duration.go:93-99 | a lone 0 is a duration with any sign, every other number needs a unit |
| DurationLaws.DecimalTimesUnit | tabletest/parse_duration.go:107-163 | with exact arithmetic in place of floating point, a decimal number with a unit is the number times the unit, rounded down |
| DurationLaws.KeptIsLongest | tabletest/parse_duration.go:36-62 | of a fraction as many digits count as fit an int64 |
| LruCache.LRUstorage.Get | lrucache/lru.go:22-31 | a hit returns the value held and counts as the latest access; a miss changes nothing |
| LruCache.LRUstorage.Set | lrucache/lru.go:33-59 | after any history the contents are the last cap keys accessed, each with its latest value; list and map hold the same keys once |
| LruCache.LRUstorage.Clear | lrucache/lru.go:61-77 | empties list and map and starts the history anew |
| LruCache.LRUstorage.ForgetNodes | lrucache/lru.go:66-76 | removing node after node with the next pointer read in time empties the list |
| LruCache.LRUstorage.Range | lrucache/lru.go:79-90 | the callback sees the contents in order up to the first it declines |
| LruCache.LRUstorage.Evict | lrucache/lru.go:45-55 | the oldest key leaves both list and map |
| LruCache.MovedIsLinked | lrucache/lru.go:39-41 | moving a node keeps list and map describing the same keys |
| LruHistory.LatestAppend | lrucache/lru.go:29-30 | one more access moves its key to the end of the de-duplicated history |
| LruHistory.RecentHit | lrucache/lru.go:38-43 | after a hit the contents are those of the longer history |
| LruHistory.RecentMiss | lrucache/lru.go:45-58 | after a new key the oldest entry goes exactly when the cache is full |
| LruHistory.RecentMeans | lrucache/lru.go:22-59 | a key is held exactly if fewer than cap other keys were accessed since its last access, with the value of that access, and before exactly those |
| LruHistory.RecentWasAccessed | lrucache/lru.go:22-59 | no other keys are held |
| ForthWords.HistoryIsFlat | forth/eval.go:99-161 | for every history of definitions, a row means the flat program of primitives and literals put together from what each definition captured at its time |
| ForthWords.RunIsFlat | forth/eval.go:120-137 | running a word is running its fully flattened program |
| ForthWords.DefineIsFlat | forth/eval.go:109-118 | a definition fixes its word from the dictionary as it is |
| ForthWords.LaterDefinitionsDoNotMatter | forth/eval.go:113-126 | redefining other words, those it uses among them, never changes a word |
| ForthWords.SelfReferenceIsOlder | forth/eval.go:113-118 | a new word runs its body in the dictionary as it was, so its own name in the body means the older word, whatever the body is |
| ForthWords.QuotientTruncates | forth/eval.go:54 | division truncates towards zero |
| ForthLaws.ArithmeticMeans | forth/eval.go:22-45 | plus, minus and times replace the two numbers on top by the exact result in 64 bits, the upper number being the right operand |
| ForthLaws.DivisionMeans | forth/eval.go:46-55 | division rounds towards zero and fails on a zero divisor |
| ForthLaws.ShufflesMean | forth/eval.go:57-84 | what dup, drop, swap and over leave on top, whatever is below |
| ForthLaws.FailsExactly | forth/eval.go:22-84 | a word fails exactly when it finds too few numbers, or a zero to divide by |
| ForthLaws.SubtractThenAdd | forth/eval.go:22-40 | taking a difference and adding the subtrahend gives the minuend back, overflow or not |
| ForthLaws.RowsCompose | forth/eval.go:142-158 | a row does what its parts do one after the other |
| ForthLaws.TokenMeans | forth/eval.go:142-158 | a token runs the word it names in lower case, or pushes the number it spells, or fails |
| ForthLaws.DefinedIsFound | forth/eval.go:99-140 | after a definition every spelling of the name runs the body as it was meant when defined |
| Forth.Append | forth/eval.go:27 | append writes one entry in place if there is room, and else leaves the array alone and writes into a larger copy |
| Forth.Binary | forth/eval.go:22-55 | arithmetic on the shared array is arithmetic on the stack, wrapping at 64 bits, with the same failures |
| Forth.Shuffle | forth/eval.go:57-84 | dup, drop, swap and over on the shared array |
| Forth.CallSteps | forth/eval.go:120-137 | the closure of a defined word does what its captured steps do, leaves in the array what its flat program leaves there, and terminates |
| Forth.Evaluator.CaptureTokens | forth/eval.go:112-118 | the loop binds each token to the word it names now |
| Forth.Evaluator.DefineWord | forth/eval.go:99-140 | accepts exactly a colon, a name that is no number, one or more tokens and a semicolon, and binds the flat program of these tokens |
| Forth.ShapeOfDefinition | forth/eval.go:99-112 | the tests on length and last token find exactly that shape |
| Forth.EvalAll | forth/eval.go:142-158 | the loop over a row does what its words do on the shared array, whose contents afterwards are those of the flat program up to the step that fails, and says whether the stack is still in that array |
| Forth.Evaluator.EvalTokens | forth/eval.go:142-161 | a row that succeeds becomes the new stack; one that fails leaves the words, the height and the array the stack is in, with what the row wrote there |
| Forth.Evaluator.Process | forth/eval.go:89-97 | both kinds of rows, told by the flat programs of the dictionary; after either the exact contents of the array the row started in |
| ForthMemory.EntryAfterRow | forth/eval.go:22-84 | an entry of that array holds what it held, if no step writes it in place before the stack outgrows the array, and else what the last such step made of it |
| ForthMemory.SharedUntilGrowth | forth/eval.go:27 | the stack is in its array as long as it was never higher than the array is long |
| ForthMemory.StepWrites | forth/eval.go:22-84 | a step changes the entries it writes, to what the new stack holds there, and no others |
| ForthMemory.TraceAppend | forth/eval.go:144-158 | a row split in two leaves what the second part leaves after the first, or what the first leaves if it fails |
| ForthMemory.FailingRowOverwrites | forth/eval.go:27 | after `1 2` the row `+ foo` fails and leaves the stack 3 2 |

## Left out

- RateLimitState.RateIsLimited: speaks of the moment a token is taken, not of the moment the caller's goroutine runs on.
- RetryUpdate.UpdateValue: with other writers about, a Set may take effect more than once, so exactly one is claimed only without them; the update is a function of the value it is given; a request carried out late, after its client has gone on, is not modelled. The script of disturbances is finite, as without an end to them the loops need not end.
- IpRange.ExpandList: asks for at least one range, as the original indexes an empty slice otherwise.
- ExternalSort.Merge: readers are buffered line readers over arbitrary streams; other implementations of LineReader are not modelled.
- ExternalSort.Sort: asks for distinct files; failing Open, Seek and Truncate calls are not modelled. The writer is a stream positioned at its end.
- PubSubSafe.NeverClosesTwice: Unsubscribe on a closed bus, which the original crashes on, is not a step.
- Duration.ParseDuration: the rounding of fractions is a parameter, known only to lie between zero and one unit.
- KeyLock.KeyLock.Unlock: assumes that each unlock is called once, as its state has no name for a used one.
- forth: how much capacity `append` allocates is the model's choice, twice the length and one more; only whether there is room matters to the contracts.
- distbuild: the unlock returned by Get called more than once, as the state machine has no name for a used one.
- keylock: that the caller may change the slice of keys it passed in while the request is queued.
- distbuild: commit or abort called more than once on the same artifact, changes to the directories by other processes, and Range, which takes no lock.
- pubsub, keylock, ratelimit: fairness of the scheduler, the writer preference of RWMutex, context timers and the select statements' random choice, which the state machines leave open.
- distbuild: os.RemoveAll in Remove and abort is steps of the state machine only, which may take the files away one by one and stop halfway.
- pubsub: the loops of dynBuffer and of the callback's goroutine are steps of the state machine only, as they run until their channels are closed; so are the sections of Subscribe, Publish and Close that only take a lock or look at a flag.
- iprange: log output, debug output and the text of error messages; the first cases of the error recovery that no token can reach.
- lrucache: callbacks of Range that change the cache, and negative capacities.
- forth: splitting a row into tokens.
- batcher, which hands a held lock from one goroutine to another, and waitgroup, whose Add does not release waiters at zero as documented.
- once, cond and rwmutex, which are smaller relatives of keylock; gossip, ledger, dao, shopfront and the HTTP, JSON and reflection components, which are input and output; the distbuild scheduler and worker, which are stubs.
