# Verified models of three C programs

A multithreaded web server, a chat server and a clone of `make`, modelled in
Dafny with proofs of the properties they are written to have. `dafny verify
dfyconfig.toml` checks everything.

**The web server.** Dispatcher threads put requests into a bounded ring buffer;
worker threads take them out, answer them from a least-frequently-used cache or
from the disk, and log them. The ring and the cache are classes over arrays
(`RequestRing.dfy`, `LfuCache.dfy`), each method proved equal to a function on
the structure's fields. The threads are a labelled transition system over those
same functions (`ServerModel.dfy`): every thread has a program counter, every
step is one atomic action, and signals follow POSIX (IEEE Std 1003.1-2017, XSH
chapter 3): `pthread_cond_signal` may wake several threads and blocked threads
may wake for no reason. One invariant per concern (mutexes, wakeups, requests,
cache content, duplicates) is proved to survive every step. `ServerTheorems.dfy`
draws the conclusions for every reachable state: no deadlock, no lost wakeup,
first-in first-out, exactly-once service, a transparent cache, bounded
duplicates, and a bound on the work left that forces every accepted request to
be answered and logged. A journal of what every thread did (`ServerJournal.dfy`)
gives the life of each request: which of three courses it follows, step by step,
so that whatever was read from the disk is inserted into the cache. What the
cache then does is told by its operations alone (`LfuHistory.dfy`), and a request
is answered from the cache exactly if its name was there when it was looked up
(`ServerHits.dfy`, `ServerTheorems.dfy`).

**The chat server.** `strtok` is specified as a function on strings (section
7.24.5.8 of ISO/IEC 9899:2011) and proved of the routine that overwrites its
buffer (`CStrings.dfy`). On it rest the command lines (`ChatCommands.dfy`), the
slot table with its invariant (`ChatRoom.dfy`), who receives what
(`ChatDelivery.dfy`) and the server's routines over its array
(`ChatProgram.dfy`). `ChatRoster.dfy` is the same chat without a table: members
by name, and what each event makes each descriptor hear. The table and everything
written are proved to follow it over every run.

**The make clone.** The parser splits each line in its buffer with `strtok` and
three different delimiters and keeps a write position and a flag. It is proved
equal to a fold over classified lines, and the fold is proved to accept exactly
the well-formed files and to yield exactly their targets; what each line is
taken for is stated by the positions of its characters (`MakefileParser.dfy`).
Parsing what a list of targets is written out as gives the list back, whatever
comments, blank lines and leading spaces are added (`MakefileRoundTrip.dfy`).
`build` is a recursive method on an array of targets and main's copy of the
root, proved equal to a specification that also records commands, calls and
recursion depth (`MakeBuild.dfy`). Its properties are proved of that
specification: shallow recursion and commands run once (`MakeTheorems.dfy`),
what it returns (`MakeReturns.dfy`), dependencies before dependents
(`MakeOrder.dfy`), exactly which targets are visited (`MakeVisits.dfy`), in
which order (`MakeCallOrder.dfy`), exactly which commands run
(`MakeCommands.dfy`), and that the recorded commands, run again one after
another, give the build's files and outcomes (`MakeReplay.dfy`). The order and
the commands are given by the makefile and the times before the build alone;
`MakeExamples.dfy` holds small makefiles that separate the cases.

Sockets, HTTP, the disk, `malloc`, `stat`, `fork` and `exec` are parameters: a
request arrives, a file has bytes or an error, `malloc` returns any address not
in use, a command is any function of the files, the target and the number of
commands run before. Histories (accepted requests, answers, log lines, commands
run, calls made, the journal) are recorded for the theorems and read by no
operation.

Where the code and its documentation differ, the model follows the code:

- `Project 2 - Server/README.md` documents the form `\p2p <userName> <message>`.
  With any extra space before the name, `extract_text` counts single spaces
  instead of tokens and delivers part of the command with the text.
  `ChatCommands.CommandRoundTrip` gives the exact condition.
- `Project 1 - Makefile/util.h` says `parse` returns 0 on success. It returns the
  number of targets.
- The description of `build` asks for -1 if any target fails to build
  (`Project 1 - Makefile/main.c:46-49`). A command killed by a signal counts as a
  success, because only a non-zero exit status is looked at (line 148).
  `MakeReturns.KilledCommandSucceeds` gives such a makefile and
  `MakeReturns.MeetsDescription` the exact condition.

A command can run twice in one build, because main builds a copy of the root and
the walk may come back to the array entry. `MakeCommands.TwiceExactlyOnCycle`
says exactly when.

A client that is refused leaves two pipe ends open in the chat server:
`get_connection` makes its pipes before it is known whether there is a slot and
whether the name is free, and only an accepted client's ends are closed
(`Project 2 - Server/server.c:363-416`). `ChatRoom.OpenAfterRun` counts them.

## Model

| member | source | states |
|---|---|---|
| RequestRing.PutIsAppend | Project 3 - Multithreaded Web Server/server.c:250-255 | storing into a ring that is not full appends to the queued sequence and keeps store index = (service index + count) mod size |
| RequestRing.RestIsTail | Project 3 - Multithreaded Web Server/server.c:293-295 | taking from a ring that is not empty removes exactly the oldest queued request and keeps the index invariant |
| RequestRing.RequestQueue.constructor | Project 3 - Multithreaded Web Server/server.c:180-188 | a new queue is valid, empty and of the requested length |
| RequestRing.RequestQueue.Store | Project 3 - Multithreaded Web Server/server.c:247-255 | the array and counters then hold the old queue with the request at its end |
| RequestRing.RequestQueue.Take | Project 3 - Multithreaded Web Server/server.c:293-295 | the old queue was the returned request followed by the new queue |
| LfuCache.Find | Project 3 - Multithreaded Web Server/server.c:96-107 | the lowest slot holding the name, or -1 exactly when none does |
| LfuCache.LeastUsed | Project 3 - Multithreaded Web Server/server.c:133-140 | the lowest slot among those with the smallest use count |
| LfuCache.LookupKeepsOk | Project 3 - Multithreaded Web Server/server.c:92-108 | a lookup keeps buffer ownership and changes no name and no content |
| LfuCache.InsertKeepsOk | Project 3 - Multithreaded Web Server/server.c:111-144 | an insertion keeps slots owning distinct live buffers of the recorded length and next slot = count mod size |
| LfuCache.InsertEffect | Project 3 - Multithreaded Web Server/server.c:111-144 | the content goes to the next free slot, or to the least used one when the cache is full; every other slot is unchanged; exactly the replaced buffer is freed |
| LfuCache.Heap.Malloc | Project 3 - Multithreaded Web Server/server.c:116-118 | hands out an address that was not live, holding a copy of the bytes |
| LfuCache.Heap.Free | Project 3 - Multithreaded Web Server/server.c:141 | only a live buffer can be freed, and it alone is no longer live afterwards |
| LfuCache.ContentCache.constructor | Project 3 - Multithreaded Web Server/server.c:157-164 | a new cache is valid, empty and of the requested size |
| LfuCache.ContentCache.GetCacheIndex | Project 3 - Multithreaded Web Server/server.c:92-108 | the search loop returns the lowest match or -1 and counts one use of that slot and no other |
| LfuCache.ContentCache.AddIntoCache | Project 3 - Multithreaded Web Server/server.c:111-144 | the in-place insertion, eviction loop included, is the specified one, and frees no buffer twice |
| LfuCache.ContentCache.DeleteCache | Project 3 - Multithreaded Web Server/server.c:147-154 | frees every cached buffer exactly once and no other buffer |
| LfuHistory.RunsCountHits | Project 3 - Multithreaded Web Server/server.c:102-120 | over every run, each slot's use count is the number of lookups that ended in it since it was last filled |
| LfuHistory.ReplacesLeastUsedByHistory | Project 3 - Multithreaded Web Server/server.c:132-142 | after any run of a fresh cache, an insertion into the full cache replaces exactly the lowest slot among those with fewest such hits and leaves all others unchanged |
| LfuHistory.ReplacedSlotIsNextVictim | Project 3 - Multithreaded Web Server/server.c:120-142 | the slot replaced last is the one replaced by every later insertion until a lookup hits it |
| LfuHistory.FewSlotsReplaced | Project 3 - Multithreaded Web Server/server.c:131-142 | once the cache is full, any run with h hits replaces at most h + 1 different slots |
| LfuHistory.RunsOwn | Project 3 - Multithreaded Web Server/server.c:111-154 | over every run the live buffers are those of the occupied slots and of others, without overlap, so deleting the cache leaves exactly the others' |
| LfuHistory.SlotsHoldLastFills | Project 3 - Multithreaded Web Server/server.c:111-144 | after any run of a fresh cache every occupied slot has the name and the content of the insertion that last filled it, and no other slot was ever filled |
| LfuHistory.EffectsFollowHistory | Project 3 - Multithreaded Web Server/server.c:92-144 | the effect of every operation in a run is the one the earlier operations call for: a lookup hits the lowest slot last filled for its name and misses if there is none; an insertion goes to the lowest slot never filled, or else to the lowest of those with fewest hits since their fill |
| ServerModel.StepKeepsSafe | Project 3 - Multithreaded Web Server/server.c:232-421 | every step of every thread keeps the ring's and the cache's invariants |
| ServerLocks.StepKeepsLocks | Project 3 - Multithreaded Web Server/server.c:243-417 | every step keeps: a mutex is owned by a thread exactly while that thread is in a critical section of that mutex |
| ServerWakeups.StepKeepsWakeups | Project 3 - Multithreaded Web Server/server.c:243-297 | every step, spurious wakeups and signals after unlock included, keeps queued requests and free slots covered by threads that owe a signal or have been woken |
| ServerWakeups.QuietMeansDrained | Project 3 - Multithreaded Web Server/server.c:244-286 | if all workers sleep and no dispatcher is between its wait and its signal, the queue is empty and no dispatcher sleeps |
| ServerProgress.MovesUnlessQuiet | Project 3 - Multithreaded Web Server/server.c:232-421 | some thread can take its next step if and only if there is anything left to do |
| ServerProgress.RunIsBounded | Project 3 - Multithreaded Web Server/server.c:232-421 | in any interleaving the server's own steps are bounded by arrivals and spurious wakeups |
| ServerRequests.StepKeepsRequests | Project 3 - Multithreaded Web Server/server.c:238-417 | every step keeps: each accepted request in exactly one place, one answer for each done one, the log in agreement with the answers, and the stored history equal to the taken history followed by the queue |
| ServerCaching.StepKeepsCacheRun | Project 3 - Multithreaded Web Server/server.c:303-393 | the cache operations of all workers, in the order of their critical sections, form one sequential run of the cache |
| ServerCaching.StepKeepsContent | Project 3 - Multithreaded Web Server/server.c:303-400 | every step keeps: cached and carried bytes were read from the disk for that very name, a failing request was refused by the disk, and the slot of a hit being processed still holds that name |
| ServerCaching.StepKeepsCopies | Project 3 - Multithreaded Web Server/server.c:303-393 | every step keeps: slots holding a name plus workers between missing on it and inserting it are at most the workers |
| ServerJournal.StepKeepsJournal | Project 3 - Multithreaded Web Server/server.c:238-417 | every step keeps: what was done for each accepted request is as far along its course as the place it is in says, and nothing was done for any other |
| ServerJournal.StepTells | Project 3 - Multithreaded Web Server/server.c:238-417 | every step keeps: the histories of the queue, the cache operations, the disk, the answers and the log are exactly what the journal tells, in its order |
| ServerHits.StepKeepsHits | Project 3 - Multithreaded Web Server/server.c:303-321 | every step keeps: a worker with a hit at hand did the latest operation on the cache, and every answer from the cache has the bytes of the last fill of the slot its lookup hit |
| ServerTheorems.ServerStarts | Project 3 - Multithreaded Web Server/server.c:449-493 | every configuration that main accepts has an initial state |
| ServerTheorems.NoThreadHoldsTwo | Project 3 - Multithreaded Web Server/server.c:243-417 | in every reachable state no thread owns two mutexes |
| ServerTheorems.NeverDeadlocks | Project 3 - Multithreaded Web Server/server.c:243-321 | in every reachable state not all threads sleep on the conditions, and some thread can move unless everybody waits for clients and the queue is empty |
| ServerTheorems.NoLostWakeup | Project 3 - Multithreaded Web Server/server.c:244-297 | in every reachable state, while a worker sleeps the queued requests are at most the dispatchers yet to signal plus the workers woken; symmetrically for free slots and dispatchers |
| ServerTheorems.QueueIsFifo | Project 3 - Multithreaded Web Server/server.c:244-295 | in every reachable state the requests ever stored are those ever taken followed by the ring's contents, in order |
| ServerTheorems.AcceptsArrivals | Project 3 - Multithreaded Web Server/server.c:239-250 | over every run the accepted requests are the arrivals in order, each with the descriptor and the name that arrived |
| ServerTheorems.ExactlyOnce | Project 3 - Multithreaded Web Server/server.c:238-417 | in every reachable state an accepted request is in exactly one place, has one answer exactly when done, one log line exactly when logged, marked HIT exactly when its answer came from the cache |
| ServerTheorems.RequestLife | Project 3 - Multithreaded Web Server/server.c:238-417 | in every reachable state what was done for an accepted request is the beginning of one of three courses, complete once it is logged: stored, taken, looked up under its name, then a hit answered from the cache and logged HIT; or a miss, read, inserted under its name with the bytes read, answered with them and logged MISS; or a miss that the disk has no data for, answered with an error and logged MISS |
| ServerTheorems.MissesAreInserted | Project 3 - Multithreaded Web Server/server.c:303-399 | every request answered with bytes from the disk has exactly two operations of its own in the run of the cache: the lookup of its name, a miss, and later the insertion of these bytes under its name |
| ServerTheorems.OthersOnlyLookUp | Project 3 - Multithreaded Web Server/server.c:303-387 | every request answered from the cache or with an error has exactly one, the lookup of its name, a hit exactly if the answer came from the cache |
| ServerTheorems.HitsExactlyIfCached | Project 3 - Multithreaded Web Server/server.c:303-321 | an answered request was looked up once, and is answered from the cache if and only if some slot had then last been filled for its name; the bytes are those of the last fill of the lowest such slot |
| ServerTheorems.NothingInvented | Project 3 - Multithreaded Web Server/server.c:318-399 | only accepted requests are answered |
| ServerTheorems.CacheIsTransparent | Project 3 - Multithreaded Web Server/server.c:303-399 | bytes sent, on a hit as on a miss, were read from the disk for that name, and an error only follows a refusal by the disk; for a file that does not change every answer is its bytes, or an error exactly if the disk has none |
| ServerTheorems.DuplicatesAreBounded | Project 3 - Multithreaded Web Server/server.c:303-393 | slots holding a name plus workers about to insert it never exceed the workers; with one worker no name is cached twice |
| ServerTheorems.CacheFollowsHistory | Project 3 - Multithreaded Web Server/server.c:92-144 | in every reachable state the use counts are the hits since filling and the live cache buffers are exactly those of the occupied slots |
| ServerTheorems.EventuallyServesEverything | Project 3 - Multithreaded Web Server/server.c:232-421 | a run takes boundedly many server steps per arrival and spurious wakeup, and when no thread can move every accepted request has been answered and logged |
| CStrings.StrtokFinds | Project 2 - Server/util.c:27-32 | what one scan over delimiters and then over other characters finds is the token that strtok returns, with the rest it saves |
| CStrings.Tokenizer.Next | Project 2 - Server/util.c:27-32 | one call returns the next token, ends it with a NUL in the buffer, saves the rest and writes nothing else |
| CStrings.ParseLine | Project 2 - Server/util.c:25-36 | the token array names every token in order, and each still reads as that token after all later calls have overwritten the buffer |
| ChatCommands.FindCommandType | Project 2 - Server/util.c:38-48 | the type of the table entry equal to the word, or broadcast exactly when there is none |
| ChatCommands.GetCommandType | Project 2 - Server/util.c:50-57 | the type of the line's first word, found on a private copy |
| ChatCommands.TokensNeedSpaces | Project 2 - Server/server.c:230-235 | a line of three tokens has two spaces, so neither strchr in extract_text returns NULL |
| ChatCommands.ExtractName | Project 2 - Server/server.c:205-219 | the second token, or failure exactly when there are fewer than two |
| ChatCommands.ExtractText | Project 2 - Server/server.c:221-240 | everything after the line's second space, or failure exactly when there are fewer than three tokens |
| ChatCommands.P2PLineTokens | Project 2 - Server/util.c:25-57 | extra spaces around the command word change neither the command nor the name |
| ChatCommands.CommandRoundTrip | Project 2 - Server/server.c:205-240 | a private message line is always recognised and its name recovered; the text is recovered exactly, inner and leading spaces included, if and only if nothing precedes the command and one space follows it |
| ChatCommands.NameAndTextGiven | Project 2 - Server/server.c:205-240 | a private message line with a name gives that name, and a text exactly if something other than spaces follows |
| ChatCommands.NoNameGiven | Project 2 - Server/server.c:205-240 | without a name the line is still recognised and gives neither name nor text |
| ChatCommands.DoubledSpaceAddsName | Project 2 - Server/server.c:231-235 | with two spaces after the command the receiver gets the name in front of the text |
| ChatProgram.ChatServer.constructor | Project 2 - Server/server.c:311-325 | the initial table is all vacant and satisfies the invariant |
| ChatProgram.ChatServer.FindEmptySlot | Project 2 - Server/server.c:22-32 | the lowest vacant slot, or -1 exactly when all are occupied |
| ChatProgram.ChatServer.FindUserIndex | Project 2 - Server/server.c:181-200 | the lowest occupied slot of that name, or -1 exactly when no occupied slot has it |
| ChatProgram.ChatServer.Accept | Project 2 - Server/server.c:363-416 | pipe by pipe: an admitted client fills the lowest vacant slot and no other, with its name, its process, the write end of the pipe to its child and the read end of the pipe from it, and costs the server these two descriptors; a refused one changes no slot and leaves its two pipe ends open |
| ChatProgram.ChatServer.OpenClientPipes | Project 2 - Server/comm.c:148-154 | of the client's two new pipes the server keeps one end each, as main closes the others right after |
| ChatProgram.ChatServer.OpenChildPipes | Project 2 - Server/server.c:379-401 | of the two pipes to the child the server keeps one end each |
| ChatProgram.ChatServer.KickUser | Project 2 - Server/server.c:113-143 | clearing field by field vacates exactly that slot and closes exactly its two descriptors; nothing is written |
| ChatProgram.ChatServer.CleanupUsers | Project 2 - Server/server.c:167-176 | kicks every occupied slot: none is left, and open is only what refused clients left |
| ChatProgram.ChatServer.BroadcastMsg | Project 2 - Server/server.c:148-162 | every occupied slot but the sender's receives the text once more, every other descriptor nothing more, and nothing else changes |
| ChatProgram.ChatServer.SendP2PMsg | Project 2 - Server/server.c:246-299 | causes exactly one write: the message, or one error to the sender |
| ChatProgram.ChatServer.ListUsers | Project 2 - Server/server.c:37-76 | the buffer built name by name, its last newline overwritten with a NUL, goes to the asking user and is the specified listing |
| ChatProgram.ChatServer.HandleAdmin | Project 2 - Server/server.c:425-470 | main's switch on an admin line changes the table and writes exactly as the event does |
| ChatProgram.ChatServer.HandleUser | Project 2 - Server/server.c:474-516 | main's switch on a user's line changes the table and writes exactly as the event does |
| ChatRoom.EventKeepsOk | Project 2 - Server/server.c:356-516 | every connect, kick, exit and message keeps names and descriptors distinct, vacant slots blank, and open exactly the descriptors of occupied slots and those left by refused clients |
| ChatRoom.RunKeepsOk | Project 2 - Server/server.c:356-516 | over every sequence of events the same holds, and after the admin's exit every slot is vacant and only what refused clients left is open |
| ChatRoom.OpenAfterRun | Project 2 - Server/server.c:363-416 | after every run the open descriptors are those of occupied slots plus two for every refused connect; so once the admin has left, nothing is open if and only if every connect found a vacant slot and a free name |
| ChatRoom.SecondNameLeaks | Project 2 - Server/server.c:373-376 | a second connect under a taken name, then the admin's exit: two descriptors are still open |
| ChatDelivery.BroadcastIsExact | Project 2 - Server/server.c:148-162 | after a broadcast a descriptor has received the text once more if it is the pipe end of an occupied slot other than the sender's, and otherwise nothing more; nothing else changes |
| ChatDelivery.PlainLinesReachOthers | Project 2 - Server/server.c:461-507 | a user's line that is no command reaches everybody but that user, with the name and a colon in front; the admin's reaches everybody as a notice |
| ChatDelivery.PrivateMessageIsExact | Project 2 - Server/server.c:246-299 | a message that passes the checks is written once, to the one slot of that name; otherwise the sender alone gets one error |
| ChatDelivery.MessageArrives | Project 2 - Server/server.c:205-299 | in every reachable room, the text typed after a user's name arrives as typed at that user and at no other |
| ChatRoster.ConnectSeats | Project 2 - Server/server.c:83-95 | a connection is admitted exactly if its name is free and fewer than ten are there; then the lowest vacant slot, and only it, gets its name, its process, the write end of the pipe to its child and the read end of the pipe from it; otherwise no slot changes |
| ChatRoster.EventRefinesRoster | Project 2 - Server/server.c:356-516 | every event changes the table as it changes the members by name: a kick removes that member, a member's exit that member, the admin's exit all |
| ChatRoster.EventIsHeard | Project 2 - Server/server.c:246-513 | what each descriptor receives by an event, for every kind of line and every failed check of a private message |
| ChatRoster.ChatFollowsRoster | Project 2 - Server/server.c:356-516 | over every run the occupied slots are exactly the members left, with their processes and pipe ends, and every descriptor has received exactly what the deeds say, in order |
| ChatRoster.UsersAreClients | Project 2 - Server/server.c:379-410 | over every run each occupied slot is a client's that connected, with the write end of the pipe made to its child and the read end of the pipe made from it; everything sent went to a write end made for a client's child |
| ChatRoster.ListIsReadable | Project 2 - Server/server.c:46-76 | the listing reads back, line by line, as its heading and the names of the occupied slots in order |
| ChatRoster.NamesAreMembers | Project 2 - Server/server.c:50-60 | the names listed are those of the members, each once |
| MakefileParser.FoldIsExact | Project 1 - Makefile/util.c:144-211 | after every prefix of the file the fold accepts exactly if the prefix is well formed, holds exactly its targets, and its flag says exactly whether a command may follow |
| MakefileParser.ParseIsExact | Project 1 - Makefile/util.c:129-216 | parsing succeeds exactly when no line is malformed and every command follows a rule directly up to blank lines, and then yields exactly the file's targets in order with their dependencies and at most one command each |
| MakefileParser.Parse | Project 1 - Makefile/util.c:129-216 | line by line from a character buffer, the loop with its write position and flag leaves the fold's targets in the array and zeros behind them, or returns -1 exactly when the fold fails |
| MakefileParser.LineBody | Project 1 - Makefile/util.c:150-160 | cutting the buffer at the newline, dropping comments and skipping spaces finds exactly the part of the line that `LineIsWhatItSays` describes, or that none counts |
| MakefileParser.LineIsWhatItSays | Project 1 - Makefile/util.c:150-184 | by positions in the raw line: it is ignored exactly if there is nothing before the newline, or it starts with `#`, or it is all spaces; a command exactly if it is spaces, a tab and the command; malformed exactly if the rest is no command and has no colon or only colons |
| MakefileParser.RuleIsWhatItSays | Project 1 - Makefile/util.c:189-201 | otherwise it is a rule for the name between the leading colons and the next colon, depending on the words after that |
| MakefileParser.ParseRule | Project 1 - Makefile/util.c:189-208 | strtok with ":" and then with " " on the same buffer fills the entry with the rule's name and dependencies, or fails exactly when the line does not classify as a rule |
| MakefileParser.RuleHasName | Project 1 - Makefile/util.c:179-208 | a line with a colon is a rule unless it consists of colons only: strtok skips leading colons, so `:a` names the target `a` |
| MakefileParser.ParseLineInto | Project 1 - Makefile/util.c:150-210 | tokenising the buffer in place, each line keeps write position = targets seen less the pending flag and advances the fold by one; a command that no target awaits is rejected |
| MakefileParser.AddDependencies | Project 1 - Makefile/util.c:194-201 | the inner loop of strtok calls appends all remaining tokens in order to that entry and touches no other |
| MakefileRoundTrip.ParsingInvertsWriting | Project 1 - Makefile/util.c:144-211 | for every list of targets that a makefile can state, the file written from it is accepted and parses back to exactly that list |
| MakefileRoundTrip.DecorationIsIgnored | Project 1 - Makefile/util.c:150-160 | comments, blank lines and spaces in front of lines change nothing, on any file: neither whether it is accepted nor its targets |
| MakefileRoundTrip.ParsingInvertsDecoratedWriting | Project 1 - Makefile/util.c:144-211 | so any such form of the file written from a list of targets parses back to exactly that list |
| MakefileRoundTrip.IndentedCommentIsNone | Project 1 - Makefile/util.c:151-160 | after a space `#` starts no comment: the line is a rule if it has a colon and malformed otherwise |
| MakefileParser.FindTarget | Project 1 - Makefile/util.c:116-124 | the lowest target of that name, or -1 exactly when there is none |
| MakeBuild.CompareTimes | Project 1 - Makefile/util.c:69-93 | 2 exactly when both files exist and the first is strictly older, 1 exactly when the second is, -1 exactly when one is missing |
| MakeBuild.BuildFrom | Project 1 - Makefile/main.c:90-160 | defined for every makefile, cyclic ones included, so the walk terminates; no target becomes unfinished again |
| MakeBuild.MeasureFalls | Project 1 - Makefile/main.c:98-104 | unfinished entries first, then whether the callee is one, never rises as statuses move on, although the root is a copy outside the array |
| MakeBuild.Walk.constructor | Project 1 - Makefile/main.c:249-252 | copies the root, resets every status |
| MakeBuild.Walk.DependencyIndex | Project 1 - Makefile/main.c:96 | `find_target` on the live array finds the specified dependency, whatever the statuses are |
| MakeBuild.Walk.Build | Project 1 - Makefile/main.c:90-160 | the recursive method returns 0 or -1 and leaves statuses, files and history exactly as the specification says, on every makefile |
| MakeBuild.Walk.VisitDependencies | Project 1 - Makefile/main.c:95-119 | the loop over the dependencies is the specified loop |
| MakeBuild.Walk.Inspect | Project 1 - Makefile/main.c:96-118 | one turn of the loop is the specified step |
| MakeBuild.Walk.Descend | Project 1 - Makefile/main.c:102-107 | marks the target before it recurses into an unfinished dependency |
| MakeBuild.Walk.RunCommand | Project 1 - Makefile/main.c:121-157 | finishes an unmarked target without a command; runs a marked one's command on the present files, keeps the files it leaves and finishes the target unless it fails |
| MakeReplay.BuildKeeps | Project 1 - Makefile/main.c:90-160 | whatever every command keeps of the files and the commands run so far, build keeps |
| MakeReplay.BuildIsItsCommands | Project 1 - Makefile/main.c:126-156 | on every makefile the files build leaves are those the shell makes of the files before when it runs the recorded commands in order, each for its own target on what the one before left; each command ended as the shell then says; skipped dependencies were compared in files the build had before |
| MakeReplay.BuildIsChronicled | Project 1 - Makefile/main.c:90-160 | without self-dependencies, a call made for an unfinished target when every command so far succeeded keeps: of the targets whose command runs at all, each command saw finished exactly those whose command had run before it |
| MakeReplay.DependenciesRunFirst | Project 1 - Makefile/main.c:95-157 | on an acyclic makefile a dependency's command, if it runs at all, runs before its dependent's, unless the dependency was strictly older when inspected |
| MakeTheorems.RecursionIsShallow | Project 1 - Makefile/main.c:90-124 | recursion is at most the number of targets plus one deep without self-dependencies, and at most twice that number plus one in general |
| MakeTheorems.BuildIsOrderly | Project 1 - Makefile/main.c:90-160 | without self-dependencies, a call made for an unfinished target when every command so far succeeded only moves statuses forward and extends the history; if it succeeds, other targets are as before or went from unfinished to finished |
| MakeTheorems.CommandsRunOnce | Project 1 - Makefile/main.c:90-160 | without self-dependencies every target's command runs at most once, a failing command is the last one run, and a return of 0 leaves every visited target finished and none marked |
| MakeReturns.FailureHasReason | Project 1 - Makefile/main.c:90-160 | on every makefile -1 is returned exactly when the last command that ran exited with a non-zero status or fork fails for the marked target whose command is due; after 0 every command that ran counted as successful |
| MakeReturns.MeetsDescription | Project 1 - Makefile/main.c:46-49 | the return value is the described one if and only if it is -1 or no command was killed by a signal; after 0, every command exited with status 0 if and only if none was killed |
| MakeReturns.DescribedUnlessKilled | Project 1 - Makefile/main.c:46-49 | if no command is ever killed by a signal, the described value is returned on every makefile |
| MakeReturns.SucceedsIfAllDo | Project 1 - Makefile/main.c:121-157 | if every command exits with status 0, 0 is returned on every makefile |
| MakeReturns.KilledCommandSucceeds | Project 1 - Makefile/main.c:144-155 | one target whose command is killed: 0 is returned where the description asks for -1 |
| MakeGraph.ClosedHoldsAll | Project 1 - Makefile/main.c:95-107 | a set of targets entered by the root's followed edges and left by none holds everything the root leads to |
| MakeOrder.DependenciesBeforeDependents | Project 1 - Makefile/main.c:95-157 | on an acyclic makefile, when a target's command runs, each dependency that is a target is finished or was strictly older when its edge was inspected |
| MakeVisits.VisitsAreExact | Project 1 - Makefile/main.c:90-160 | when commands keep to their own file and the root is on no followed cycle, nested calls are made once each and only for targets the root leads to along edges not strictly older before the build, and a return of 0 means for all of those |
| MakeVisits.AcyclicVisitsAreExact | Project 1 - Makefile/main.c:90-160 | the same for every acyclic makefile, whatever the order of dependencies |
| MakeCallOrder.PreorderIsExact | Project 1 - Makefile/main.c:95-107 | the order, computed from dependencies and times before the build, lists exactly the targets the root leads to along edges not strictly older, each once |
| MakeCallOrder.CallsAreInOrder | Project 1 - Makefile/main.c:90-160 | when commands keep to their own file, no target depends on itself and the root is on no followed cycle, build calls itself in exactly this order: on all of it if it succeeds, on a first part of it if it fails |
| MakeCommands.RunsAreExact | Project 1 - Makefile/main.c:90-160 | on makefiles without self-dependencies whose commands keep to their own file, cyclic ones included: a successful build calls the whole order first, and a target of it runs its command if and only if it has no dependencies, depends on a file not strictly older before the build, or on such a target that comes after it in the order |
| MakeCommands.EachCommandRunsOnce | Project 1 - Makefile/main.c:121-157 | if moreover the root is on no followed cycle, no command runs twice, counting the root's copy and its array entry as one target, whether the build succeeds or fails |
| MakeCommands.TwiceExactlyOnCycle | Project 1 - Makefile/main.c:102-157 | in a successful build a command runs twice if and only if the root is on a followed cycle and depends on a file that was not strictly older, or on such a target that comes after the root in the order; all of it known before the build |
| MakeExamples.DependencyOrderDecides | Project 1 - Makefile/main.c:95-107 | `b: a`, `c:` and no files: with `a: b c` the command of `a` runs twice, with `a: c b` once |
| MakeExamples.SelfDependencyRunsTwice | Project 1 - Makefile/main.c:102-107 | a target that depends on itself: the build succeeds, recurses three deep and runs its command twice, once for the array entry and once for the copy |
| MakeExamples.DepthIsAttained | Project 1 - Makefile/main.c:90-124 | the bounds on the recursion are attained: by a ring of any number of targets, and by the target that depends on itself |

## Left out

- The network: sockets, accepting connections, HTTP headers, content types, the bytes on pipes, descriptor passing and the chat server's child processes. Requests and lines arrive as events, and `close`, `fork` and pipe writes of the chat server succeed.
- Shutdown of the web server: `pthread_cancel` and freeing the queue and cache while threads may still run. The dynamic thread pool is not implemented by the program either.
- The disk: `stat` and the read that follows are one step that finds no file, an unreadable file or the whole file.
- Times and the text of log lines; only the request and the HIT or MISS mark are kept.
- C's fixed buffer sizes: names, lines and token arrays are unbounded sequences, and the targets array is required to be long enough for the file. Use counts and sizes do not overflow.
- The worker's local read buffer: the path on which the read fails does not free it (`Project 3 - Multithreaded Web Server/server.c:368-387`), so ownership is claimed for cache buffers only.
- Chat lines without any word: `get_command_type` then compares a null pointer (`Project 2 - Server/util.c:55-56`). They are excluded as events.
- Chat table listing on the admin's terminal, prompts, `client.c`, and `comm.c` but for the pipes it makes; `show_targets` and option handling of the make clone; the socket code in the web server's `util.c`.
- Requested targets that the makefile does not have: main indexes the array with -1 then, so the root is required to exist.
- That a successful build leaves everything up to date: it does not, because a dependency that is older is not descended into (`Project 1 - Makefile/main.c:103`) and a finished dependency does not mark its second parent (`Project 1 - Makefile/main.c:102`).
- CStrings.ParseLine: does not model the size of the caller's token array, 16 or 128 pointers.
- MakefileParser.Parse: reads each line into a buffer of its own length instead of the 1024 characters of `szLine`, so longer lines are not split.
- ServerTheorems.NoLostWakeup: inside a critical section of the queue a thread that has stored or taken and not yet unlocked counts as owing its signal; with the mutex free there is no such thread.
- MakeTheorems.CommandsRunOnce: counts the root's copy and the root's array entry as two targets; `MakeCommands.EachCommandRunsOnce` counts them as one and needs its conditions.
