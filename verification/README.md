# Verified models of the vendored C cores

The repository carries several C libraries whose state machines and data structures decide
whether the programs on top of them work. This project models those cores in Dafny and proves
what they are for. Each model follows the branches, edge cases and constants of the C code;
loops over cursors and buffers are loops here, structures updated in place are classes and
arrays, and every such method is proved against a function or a predicate that says what it
computes. `dafny verify dfyconfig.toml` checks everything.

What is modelled, component by component:

- **libev wakeup** (`EvWakeup`, `EvIdle`): `ev_async_send` from any number of threads and signals against
  the loop, one shared access per step, sequentially consistent. Main results: the loop never
  sleeps on an empty pipe while a cell is set and no sender is inside its call; every send is
  followed by a feed within five iterations of the loop, under any load, if no sender stays
  inside one call over a whole iteration; feeds never exceed sends; and with nothing left
  to feed the loop drains its pipe and sleeps.
- **libev timers and pending events** (`EvHeap`, `EvTimerHeap`, `EvPending`, `EvLoop`): the 4-ary
  heap with back indices and cached keys, the per-priority queues under callbacks that feed and
  clear events and start and stop timers, and `timers_reify`. Main results: every run keeps what
  `verify_heap` asserts; each expired timer is collected once, in the order of expiry, and none
  is left; under reacting callbacks a watcher is called once per event queued and not cleared,
  with exactly the masks fed to it, by priority and then last in first out; the exact
  condition under which two expired timers of one priority run in the order of expiry; and a
  repeating timer that is reified in time never drifts.
- **libev I/O watchers on the poll backend** (`EvPoll`, `EvIo`): lazy reification. Main result:
  after `fd_reify` the array given to poll(2) asks for exactly what the running watchers want.
- **json-c tokener and serializer** (`JsonValue`, `JsonTokener`, `JsonReference`, `JsonMeaning`,
  `JsonSerializer`, `JsonStreaming`, `JsonComments`, `JsonRoundTrip`, `JsonDocument`, `JsonParser`,
  `JsonSession`, `JsonSamples`): the resumable machine with its `redo_char` jumps, and the printers.
  Main results: on every text given in one call, with or without its NUL, the machine answers
  exactly as a parser by recursive descent, error codes included; the exact condition under
  which a call keeps depth and stack invariant; termination of the jumps; the streaming round
  trip for every document, flag set and chunking; and escapes denote the characters they spell.
  The loop with its inlined scanning loops refines the character machine.
- **json-c linkhash** (`OrderedMap`, `LinkHashSpec`, `LinkHash`): open addressing with tombstones,
  threaded by a list. Main result: every run of operations agrees with an insertion-ordered map,
  across resizes, and a resize never asks for another one.
- **json-c pointer** (`JsonPointer`, `JsonLocation`): the path buffer that is cut, unescaped and
  mended in place. Main results: the path of any tokens finds what walking down token by token
  finds, and it finds a value if and only if the value lies at that place of the tree.
- **hiredis reader and formatters** (`RespSpec`, `RespTree`, `RespReader`, `RespFormat`,
  `RespWire`, `RespSession`): the nine-slot task stack against a recursive parser. Main results:
  any split of the stream into feeds delivers the same replies and the same error; every reply a
  server can send, written in the bytes of the protocol and cut anywhere, is delivered as what it
  means; formatted commands fill their buffer exactly, and pipelined commands are read back as the
  same arguments with nothing left over.
- **hiredis asynchronous context** (`AsyncSpec`, `AsyncMachine`, `AsyncTeardown`, `AsyncContext`): the callback
  queue with deferred free and disconnect, for callbacks that are arbitrary programs over the API.
  Main results: every run has the state its events and callbacks determine; in it the k-th
  registered callback gets the k-th reply that arrived or, in teardown, NULL; none runs twice;
  the context is torn down if and only if the events hold one of the listed causes, so a healthy
  connection stays up; teardown ends and leaves nobody waiting; nothing touches a freed context.
- **cJSON** (`CJsonText`, `CJsonParse`, `CJsonReader`, `CJsonPrint`, `CJsonRoundTrip`,
  `CJsonUnicode`, `CJsonMinify`, `CJsonSamples`): parser, both printers and the in-place minifier. Main results: parsing undoes
  both printers; no printer or string parser exceeds the buffer it sized in advance; minifying
  the formatted text gives the unformatted text; escapes and surrogate pairs denote the
  characters they spell.
- **sds arguments** (`SdsArgs`, `SdsStyles`) and **base64** (`Base64`): encoder and decoder pairs
  over all byte strings; lines that mix bare, double-quoted and single-quoted arguments.

`Bytes` holds bytes, decimal text and buffer helpers shared by the others, and `Unicode` a
decoder of UTF-8.

Where code and documentation differ the model follows the code. `is_valid_index` keeps 32 bits of
an index text, so "4294967296" finds element 0 (`JsonPointer.WrapsAround`) and "2147483648" counts
as malformed (`JsonPointer.BeyondInt32IsInvalid`), and it accepts an empty token as index 0
(`JsonPointer.EmptyTokenFindsFirst`); `JsonPointer.IndexIsRfc` says exactly when it meets the RFC.
What the json-c tokener accepts is more than JSON, in strict mode too: it reads "[1+2]" as [1]
(`JsonComments.SumIsRead`). It takes "[1 /*" for the document 1 (`JsonComments.OpenCommentEndsDocument`), does
not see the end of a comment behind an even number of stars (`JsonComments.StarsClose`), and
refuses "-Infinity" after a token that left `st_pos` set (`JsonComments.SignedInfinity`).
An event that comes while a hiredis connection is in progress leaves its error set, so the next
read or write tears the context down (`AsyncContext.Context.HandleRead`). `parse_number` of cJSON
reads "-" as 0 (`CJsonRoundTrip.LoneMinusReads`) and takes one leading zero only; `parse_string`
of cJSON accepts a missing closing quote (`CJsonRoundTrip.OpenStringReads`). Machine integers are unbounded
here unless a line below says otherwise; allocation succeeds.

## Model

| member | source | states |
|---|---|---|
| EvWakeup.StepKeepsInv | lib/libev/ev.c:2441-2553 | every step of a sender or of the loop keeps the invariant: a set cell is announced by a raised flag or by a sender on its way, and a raised flag has a wakeup pending |
| EvWakeup.SenderKeepsInv | lib/libev/ev.c:2441-2486 | one shared access of `evpipe_write` keeps the invariant, whatever the other threads are doing |
| EvWakeup.SendKeepsInv | lib/libev/ev.c:4948-4952 | setting `sent` and entering `evpipe_write` keeps the invariant |
| EvWakeup.WaitKeepsInv | lib/libev/ev.c:3631-3693 | setting `pipe_write_wanted`, testing for skips, polling and clearing it keep the invariant |
| EvWakeup.ScanKeepsInv | lib/libev/ev.c:2491-2553 | draining the pipe, clearing the flags and scanning the cells keep the invariant |
| EvWakeup.OwedAfter | lib/libev/ev.c:2441-2486 | a step of one thread changes what the senders still owe by that thread's share only |
| EvWakeup.RunKeepsInv | lib/libev/ev.c:2441-2553 | the invariant holds after any prefix of any run |
| EvWakeup.ReachableInv | lib/libev/ev.c:2441-2553 | every reachable state satisfies the invariant |
| EvWakeup.NoLostWakeup | lib/libev/ev.c:2441-2486 | when the loop is blocked on an empty pipe and no sender is inside its call, no cell is set, no flag raised and no write was skipped |
| EvWakeup.SendersWakeTheLoop | lib/libev/ev.c:2441-2486 | if the loop sleeps with a cell set, the senders alone, once finished, leave the pipe readable |
| EvWakeup.LoopEnabled | lib/libev/ev.c:3631-3693 | with a cell set and the senders at rest the loop never depends on a timeout |
| EvWakeup.LoopProgress | lib/libev/ev.c:2491-2553 | whatever the senders do, every loop step feeds a secured cell or lowers the distance to its feed; an interrupted poll costs one iteration |
| EvWakeup.SendersKeepSecured | lib/libev/ev.c:2441-2486 | no access of a sender undoes a secured cell or moves the loop |
| EvWakeup.RankFalls | lib/libev/ev.c:2491-2553 | along any run, sender steps included, the distance of an unfed secured cell falls by one with each loop step |
| EvWakeup.EverySendIsFed | lib/libev/ev.c:2491-2553 | in every interleaving, under any further sends: a set cell is fed within five iterations of the loop if each sender inside its call at the start of one is done with it before the next, and the last poll is not interrupted |
| EvWakeup.SecuredIsFed | lib/libev/ev.c:2491-2553 | a cell whose flag is raised with the pipe readable or the test still to come, or that the scan has not passed, is fed within two iterations, with any number of senders in between and no fairness assumed; an interrupted poll grants one more |
| EvWakeup.TurnRaises | lib/libev/ev.c:2441-2486 | one iteration later the flag of a set cell is raised |
| EvWakeup.TurnNotes | lib/libev/ev.c:2441-2486 | one iteration later the wakeup of a raised flag is in the pipe, in a sender bound to write it, or recorded as skipped |
| EvWakeup.TurnCatches | lib/libev/ev.c:3631-3693 | one iteration later a skipped write was noticed, or a sender has taken it over |
| EvWakeup.TurnSecures | lib/libev/ev.c:2441-2486 | one iteration later the pipe is written or the scan on its way |
| EvWakeup.TurnFeeds | lib/libev/ev.c:2491-2553 | the iteration that starts with a secured cell feeds it unless its poll is interrupted |
| EvWakeup.QuietProgress | lib/libev/ev.c:2491-2553 | with the senders at rest each loop step towards a set cell lowers the distance, skips included |
| EvWakeup.QuietSendIsFed | lib/libev/ev.c:2491-2553 | with the senders at rest a set cell is fed within two iterations |
| EvWakeup.FeedsNeverExceedSends | lib/libev/ev.c:2491-2553 | in every run from the initial state a watcher is fed at most once per send, counting the send still set |
| EvWakeup.LoopSleeps | lib/libev/ev.c:3631-3693 | two accesses into its wait the loop is blocked if and only if it may wait, the pipe is empty and no skipped write was noted; `pipe_write_wanted` is set then |
| EvWakeup.BlockedIsReachable | lib/libev/ev.c:3631-3693 | a state in which the loop sleeps and every sender is at rest is reachable from the start |
| EvIdle.StepSettles | lib/libev/ev.c:2491-2553 | with the senders at rest and no cell set, each step of the loop lowers what is left to do: bytes in the pipe, a skip not yet reset, and the way to the next poll |
| EvIdle.ComesToRest | lib/libev/ev.c:3631-3693 | so within that many steps of its own the loop sleeps with nothing left in the pipe: it never spins, whatever was written |
| EvHeap.ParentOfSlot | lib/libev/ev.c:2249 | with C's truncating division HPARENT maps the root slot to itself and every other slot to a smaller one |
| EvHeap.UpStep | lib/libev/ev.c:2334-2352 | moving an entry above its later parent leaves only the parent's slot out of order |
| EvHeap.DownStep | lib/libev/ev.c:2254-2294 | moving an entry below its earliest child leaves only the child's slot out of order |
| EvHeap.Replaced | lib/libev/ev.c:2356-2362 | an entry replaced by any other is too early for its parent or too late for its children, never both, as `adjustheap` decides |
| EvHeap.RootIsMin | lib/libev/ev.c:3126-3138 | in a heap the root is no later than any entry |
| EvHeap.ShiftedStaysOrdered | lib/libev/ev.c:3480-3490 | shifting all keys by one amount keeps the order |
| EvTimerHeap.UpFixOrders | lib/libev/ev.c:2334-2352 | `upheap` on a heap with one entry too early restores the order |
| EvTimerHeap.UpFixPermutes | lib/libev/ev.c:2334-2352 | `upheap` only permutes the entries |
| EvTimerHeap.DownFixOrders | lib/libev/ev.c:2254-2294 | `downheap` on a heap with one entry too late restores the order |
| EvTimerHeap.DownFixPermutes | lib/libev/ev.c:2254-2294 | `downheap` only permutes the entries |
| EvTimerHeap.LeastChildIsLeast | lib/libev/ev.c:2262-2281 | the unrolled search finds a child no later than all the others, or that there is none |
| EvTimerHeap.AdjustedIsHeap | lib/libev/ev.c:2356-2362 | after any one key changed, `adjustheap` gives a heap of the same entries |
| EvTimerHeap.ReheapedIsHeap | lib/libev/ev.c:2366-2374 | `reheap` makes a heap of the same entries from any order whatsoever |
| EvTimerHeap.RemovedHeap | lib/libev/ev.c:3944-3950 | dropping the last entry, or moving it into slot j, removes exactly one watcher and disturbs slot j at most |
| EvLoop.Loop.UpHeap | lib/libev/ev.c:2334-2352 | the loop computes UpFix, and every entry's watcher knows its slot |
| EvLoop.Loop.MinChild | lib/libev/ev.c:2262-2281 | both paths of the unrolled child search agree with the plain search |
| EvLoop.Loop.DownHeap | lib/libev/ev.c:2254-2294 | the loop computes DownFix, and every entry's watcher knows its slot |
| EvLoop.Loop.AdjustHeap | lib/libev/ev.c:2356-2362 | rise or sink, with all back indices right afterwards |
| EvLoop.Loop.Reheap | lib/libev/ev.c:2366-2374 | computes Reheaped with all back indices right |
| EvLoop.Loop.RootEarliest | lib/libev/ev.c:3126-3138 | no running timer is earlier than the root of a valid heap |
| EvLoop.Loop.RunningIsHeap | lib/libev/ev.c:3126-3138 | the watchers in the heap are exactly the running ones |
| EvLoop.Loop.TimerStart | lib/libev/ev.c:3906-3927 | keeps the heap valid and starts exactly w, at its time from now; nothing happens to a running timer |
| EvLoop.Loop.TimerStop | lib/libev/ev.c:3931-3958 | keeps heap and queues valid, stops exactly w wherever it sits, clears its pending event and leaves the remaining time in it |
| EvLoop.Loop.TimerAgain | lib/libev/ev.c:3962-3986 | with a repeat the timer runs and expires a repeat from now; without one it is stopped; its pending event is cleared once |
| EvLoop.Loop.TimersReschedule | lib/libev/ev.c:3480-3490 | every running timer moves by the given amount, no other one does, and the heap stays valid without repair |
| EvLoop.Loop.PendingIsSlot | lib/libev/ev.c:1995-2011 | a watcher's `pending` is one more than the slot that holds it, and 0 exactly when none does |
| EvLoop.Loop.FeedEvent | lib/libev/ev.c:1995-2011 | keeps indices and queues in step: the mask is merged into the queued event, or a new one is queued last |
| EvLoop.Loop.ClearPending | lib/libev/ev.c:3805-3829 | a dummy takes the slot, the watcher is no longer pending, and the events that were pending are returned |
| EvLoop.Loop.InvokePending | lib/libev/ev.c:3301-3318 | for callbacks that feed and clear any event and start, stop or restart any timer, the log is that of always taking the last event of the highest non-empty priority, all queues end empty, the heap stays valid, and every timer is where the callbacks that ran have left it |
| EvLoop.Loop.MoveTimer | lib/libev/ev.c:3906-3986 | a start, stop or restart from a callback has the effect of the call on the timer it names and on no other |
| EvLoop.Loop.Perform | lib/libev/ev.c:3301-3318 | each thing a callback does keeps heap and queues valid, changes the queues as its reaction says, and starts, stops or restarts exactly the timer it names, with the time the call gives it |
| EvLoop.Loop.Callback | lib/libev/ev.c:3301-3318 | so does a whole callback: every timer is where its reactions, one after the other, have left it |
| EvPending.InvocationsDrain | lib/libev/ev.c:3301-3318 | without reactions each live event is delivered once, by falling priority, last in first out |
| EvPending.InvocationOrder | lib/libev/ev.c:3301-3318 | for every script of reactions that clears neither: of two queued watchers the one of higher priority, or of equal priority and higher slot, runs first, and not otherwise |
| EvPending.RunsFirst | lib/libev/ev.c:3301-3318 | a watcher that no callback clears and that is ahead of another runs, and before it, whatever the callbacks feed |
| EvPending.DeliveredOnce | lib/libev/ev.c:3301-3318 | for every script of reactions a callback runs at most once per feed or initial event, and at least once if it was queued and nothing clears it |
| EvPending.CallsBalance | lib/libev/ev.c:3301-3318 | for every script the calls of a watcher are exactly: one if it was queued, plus the feeds that found it not pending, minus the clears that found it pending |
| EvPending.MasksDelivered | lib/libev/ev.c:1995-2011 | for every script that does not clear a watcher, the OR of the events delivered to it is its initial mask OR all masks fed to it by the callbacks that ran |
| EvPending.FedBackSlots | lib/libev/ev.c:2021-2026 | reverse feeding keeps the slot of a watcher that was pending and puts the others behind all earlier slots |
| EvPending.FedBackReverses | lib/libev/ev.c:2014-2026 | among the newly queued the one collected first gets the highest slot |
| EvPending.CollectedOrder | lib/libev/ev.c:2014-2026 | two collected watchers of one priority that no callback clears run in the order of collection if and only if the first was not pending below the second |
| EvPending.PendingRunsLate | lib/libev/ev.c:2014-2026 | a state in which the order of expiry fails: the timer that expired first is the only one pending, and runs second |
| EvLoop.Loop.FeedReverseDone | lib/libev/ev.c:2021-2026 | feeds the collected watchers from the last to the first, keeping the queues valid |
| EvLoop.Loop.ExpireRoot | lib/libev/ev.c:3354-3373 | the expired root is next due one repeat after its old time, or now if that has passed; without a repeat it is stopped, with the remaining time in it and its pending event cleared; no other timer changes, heap and queues stay valid |
| EvLoop.Loop.TimersReify | lib/libev/ev.c:3347-3381 | collects each timer with at < mn_now exactly once, in non-decreasing order of expiry; a repeating one is next due one repeat after its old time if that is not below mn_now, and at mn_now otherwise; the others are stopped; none is left running with at < mn_now; no other timer changes; the queues are those after clearing the one-shot timers and feeding all in reverse |
| EvLoop.Loop.CaughtTimes | lib/libev/ev.c:3358-3373 | of the timers that were caught: a repeating one is due at its old time plus its repeat, or at mn_now if that is earlier than mn_now; the others are stopped |
| EvLoop.Loop.ExpiryOrder | lib/libev/ev.c:3347-3381 | of two expired timers of one priority that no callback clears the earlier one is invoked first, unless it repeats, was already pending, and the other was not or sat in a higher slot: exactly then |
| EvLoop.Loop.ExpireAndInvoke | lib/libev/ev.c:3347-3381 | reifying and invoking, with any reacting callbacks, runs every expired timer that no callback clears, equal priorities in that order, leaves no event pending and keeps the heap valid |
| EvLoop.LateInvocation | lib/libev/ev.c:3347-3381 | a loop on which the order of expiry fails: of two expired timers of one priority the first repeats and was fed before, and it runs second |
| EvLoop.Loop.constructor | lib/libev/ev.c:3126-3138 | a new loop over inactive watchers has a valid heap, valid queues and no running timer |
| EvLoop.Loop.Apply | lib/libev/ev.c:3126-3138 | any call on the loop keeps heap and queues valid and does to every timer, running or not, what it says, callbacks included; the times a reification gives are stated from the old ones |
| EvLoop.Loop.Run | lib/libev/ev.c:3126-3138 | every state reached by any run of starts, stops, restarts, shifts, ticks, feeds, clears, reifications and invocations satisfies what `verify_heap` asserts |
| EvLoop.Loop.RunRepeating | lib/libev/ev.c:3347-3381 | in any run that leaves it alone, whatever other timers and callbacks do: a repeating timer that is never reified more than one repeat late ends exactly k repeats after its first time, the first multiple not before any reification, so lateness never adds up |
| EvPoll.AddedOk | lib/libev/ev_poll.c:62-76 | a new entry keeps polls and pollidxs inverse and in agreement with the masks |
| EvPoll.ChangedOk | lib/libev/ev_poll.c:73-76 | a changed mask keeps both tables in agreement |
| EvPoll.RemovedOk | lib/libev/ev_poll.c:77-86 | removal by moving the last entry into the gap keeps both tables in agreement |
| EvIo.WantedBits | lib/libev/ev.c:2119-2120 | the OR of the masks has an event exactly when some watcher of the list wants it |
| EvIo.IoLoop.PollModify | lib/libev/ev_poll.c:53-87 | for any old and new mask the tables afterwards agree with the masks in which only this descriptor changed |
| EvIo.IoLoop.FdChange | lib/libev/ev.c:2135-2147 | the descriptor is marked, and the changed descriptors stay exactly the marked ones, each listed once |
| EvIo.IoLoop.IoStart | lib/libev/ev.c:3859-3882 | a stopped watcher is put in front of the list of its descriptor, which is marked; all other lists and the masks the backend knows stay; a running watcher is left alone |
| EvIo.IoLoop.IoStop | lib/libev/ev.c:3886-3902 | the watcher leaves its list, the descriptor is marked, all other lists and masks stay; a stopped watcher is left alone |
| EvIo.IoLoop.Gather | lib/libev/ev.c:2117-2120 | the loop over the list computes the OR of its masks |
| EvIo.IoLoop.ReifyOne | lib/libev/ev.c:2104-2128 | one turn makes mask, tables and lists agree for one more descriptor |
| EvIo.IoLoop.FdReify | lib/libev/ev.c:2104-2131 | no descriptor is marked afterwards and the poll tables agree with the running watchers |
| EvIo.IoLoop.AllAgree | lib/libev/ev.c:2104-2131 | with no descriptor marked, an entry asks for POLLIN or POLLOUT exactly when some running watcher wants it, every wish has its entry, pollidxs finds it, and no entry is empty |
| EvIo.IoLoop.Run | lib/libev/ev.c:3859-3902 | any run of starts, stops and reifications keeps all of this |
| JsonTokener.MicroKeepsInv | lib/json-c/json_tokener.c:291-933 | one pass through the switch, comments, words, numbers and doubles included, keeps the stack invariant: depth below the limit, every lower level waiting with its container and, in objects, its field name |
| JsonTokener.MicroLowersRank | lib/json-c/json_tokener.c:291-933 | every jump back to `redo_char` lowers a rank over state and depth, so one character ends |
| JsonTokener.ParseExKeepsInv | lib/json-c/json_tokener.c:237-973 | whatever the input, a call keeps the invariant if and only if it was not cut by a NUL inside a comment behind a nested value; in exactly that case it succeeds above an unfinished stack, with the inner value |
| JsonTokener.NotCut | lib/json-c/json_tokener.c:473-502 | a text without NUL is never cut so |
| JsonMeaning.EveryPass | lib/json-c/json_tokener.c:291-933 | in every state and for every character, one pass through the switch leaves what the recursive parser makes of state and text unchanged, or stops with the parser's result or error |
| JsonMeaning.NumberCharNotes | lib/json-c/json_tokener.c:712-760 | a character of a number is refused exactly if it is a second point or exponent, a point behind the exponent, or a minus elsewhere than in front or behind the exponent letter, and the registers keep describing the text gathered |
| JsonMeaning.WordStep | lib/json-c/json_tokener.c:421-461 | comparing min(st_pos + 1, length) characters with a word decides whether all the characters read begin it |
| JsonMeaning.TextIsRead | lib/json-c/json_tokener.c:237-973 | every text without NUL, in one call: the tokener returns the value, asks for more, or fails with the error code, exactly as the parser by recursive descent says, in strict mode and otherwise, at any depth limit |
| JsonMeaning.StringIsRead | lib/json-c/json_tokener.c:237-973 | every C string with its NUL: it is a document if and only if the parser reads a value, behind which strict mode allows nothing, and it is that value; the one exception is a string that ends in a comment inside of an open container |
| JsonReference.KeyIsCut | lib/json-c/json_tokener.c:865-880 | a key ends in front of its first NUL |
| JsonComments.InnerValueWins | lib/json-c/json_tokener.c:938-946 | a NUL in a comment behind a nested value ends the call with that value as its result |
| JsonComments.OpenCommentEndsDocument | lib/json-c/json_tokener.c:473-502 | "[1 /*" up to its NUL is read as the document 1 |
| JsonComments.StarsClose | lib/json-c/json_tokener.c:473-512 | stars and a slash end a comment if and only if the number of stars is odd |
| JsonComments.SignedInfinity | lib/json-c/json_tokener.c:764-770 | "Infinity" behind a minus sign is read if and only if `st_pos` was left at 0 by the tokens before it |
| JsonComments.SumIsRead | lib/json-c/json_tokener.c:719-799 | "[1+2]" is read as [1], in strict mode too |
| JsonParser.Tokener.SkipSpaces | lib/json-c/json_tokener.c:294-308 | the inner loop over white space ends where the character machine would be |
| JsonParser.Tokener.GatherComment | lib/json-c/json_tokener.c:473-502 | skipping through a comment in one go is what the machine does byte by byte |
| JsonParser.Tokener.GatherText | lib/json-c/json_tokener.c:514-539 | appending a run of plain bytes at once is what the machine does byte by byte |
| JsonParser.Tokener.NumberTurn | lib/json-c/json_tokener.c:719-760 | one turn of that loop takes or refuses a character as the machine does |
| JsonParser.Tokener.GatherNumber | lib/json-c/json_tokener.c:712-755 | so is gathering the characters of a number, checks included |
| JsonParser.Tokener.ParseEx | lib/json-c/json_tokener.c:237-973 | the main loop with its inner loops returns result, error and state of the character machine |
| JsonSerializer.EscapeStr | lib/json-c/json_object.c:107-165 | copying runs of plain bytes in one piece writes the escape of every byte in order |
| JsonSerializer.Write | lib/json-c/json_object.c:538-596 | the printers append exactly the text of the value under the given flags |
| JsonSerializer.WriteArray | lib/json-c/json_object.c:1047-1088 | appends the text of an array, with separators and white space by flag and level |
| JsonSerializer.WriteObject | lib/json-c/json_object.c:359-404 | appends the text of an object, fields in order |
| JsonSamples.Slashes | lib/json-c/json_object.c:107-165 | a slash is escaped unless the flag says otherwise |
| JsonSamples.BytesStay | lib/json-c/json_object.c:107-165 | the bytes written without an escape are those from 32 on but for quote, backslash and, without the flag, slash |
| JsonSamples.PlainArray | lib/json-c/json_object.c:1047-1088 | an array without white space |
| JsonSamples.SpacedArray | lib/json-c/json_object.c:1047-1088 | the same array with spaces |
| JsonSamples.PrettyArray | lib/json-c/json_object.c:1047-1088 | the same array on indented lines |
| JsonSamples.PrettyNested | lib/json-c/json_object.c:342-356 | an array in an array, each level indented by two more spaces |
| JsonSamples.TabbedNested | lib/json-c/json_object.c:342-356 | the same with one more tab for each level |
| JsonSamples.SpacedMember | lib/json-c/json_object.c:359-404 | an object with spaces |
| JsonSamples.PrettyMember | lib/json-c/json_object.c:359-404 | the same object on indented lines |
| JsonStreaming.RedoSimilar | lib/json-c/json_tokener.c:712-799 | the per-call locals of the number state matter only for characters that no serializer output has there |
| JsonStreaming.RunGoes | lib/json-c/json_tokener.c:289-935 | within one call the machine goes where the machine without calls goes |
| JsonStreaming.CallInside | lib/json-c/json_tokener.c:289-973 | a call with a strict prefix of what is left asks for more and leaves a state that reads the rest |
| JsonStreaming.ReadsInChunks | lib/json-c/json_tokener.c:289-973 | if a text is read as a document in one piece, any chunking reads it, asking for more after every chunk but the last |
| JsonRoundTrip.EscapedGo | lib/json-c/json_tokener.c:514-673 | the escapes of any byte string are read back as that string |
| JsonRoundTrip.ControlGo | lib/json-c/json_tokener.c:541-673 | a control byte comes back from its \u00XX form |
| JsonRoundTrip.UnitGo | lib/json-c/json_tokener.c:572-673 | the four-digit escape of any code unit but a high surrogate, in digits of either case, adds its UTF-8, or U+FFFD for a lone low surrogate |
| JsonRoundTrip.EscapeDecodes | lib/json-c/json_tokener.c:572-673 | the four-digit escape of any character adds bytes that a UTF-8 decoder reads as that character |
| Unicode.Utf8Decodes | lib/json-c/json_tokener.c:594-637 | a decoder of shortest-form UTF-8 reads the bytes of every code point that is no surrogate as that code point |
| JsonRoundTrip.IntGoes | lib/json-c/json_tokener.c:712-799 | the text of an integer leaves the machine about to settle that integer |
| JsonRoundTrip.IntTextParses | lib/json-c/json_util.c:227-310 | every 64-bit integer is read back from its decimal text |
| JsonRoundTrip.BigIntsSaturate | lib/json-c/json_util.c:227-310 | integers beyond 64 bits are cut to the ends of the range |
| JsonRoundTrip.ItemEnds | lib/json-c/json_tokener.c:824-842 | the comma or bracket behind an item adds it to its array |
| JsonRoundTrip.FieldEnds | lib/json-c/json_tokener.c:910-931 | the comma or brace behind a field adds it to its object under its key |
| JsonDocument.ValueGoes | lib/json-c/json_tokener.c:289-935 | the text of any storable value within the depth limit is read as that value at any level |
| JsonDocument.StreamingRoundTrip | lib/json-c/json_tokener.c:289-973 | every array or object of nulls, booleans, 64-bit integers, byte strings and unique NUL-free keys within the depth limit, written under any flags and fed in any chunks: "continue" before the last chunk, then the same value in the same order, and the tokener is at rest |
| JsonSession.WriteAndRead | lib/json-c/json_object.c:359-404 | serializing, cutting anywhere and feeding the pieces returns the document, for the loops as written |
| LinkHashSpec.InsertedProbes | lib/json-c/linkhash.c:575-605 | a key put into the first free slot of its probe sequence is reachable, and so are all others |
| LinkHashSpec.DeletedProbes | lib/json-c/linkhash.c:651-677 | a tombstone keeps every other key reachable |
| LinkHashSpec.DeletedList | lib/json-c/linkhash.c:651-677 | the four cases of list surgery leave the list of the remaining slots in order |
| LinkHashSpec.FreeSlot | lib/json-c/linkhash.c:585-589 | a table with fewer keys than slots has a free slot, so probing ends |
| LinkHash.KeyIsMet | lib/json-c/linkhash.c:613-626 | a search from the home slot meets a present key before any empty slot |
| LinkHash.Table.FindSlot | lib/json-c/linkhash.c:583-589 | the probe loop ends at the first slot that is empty or freed, with only used slots before it |
| LinkHash.Table.Insert | lib/json-c/linkhash.c:575-605 | the map gains the new pair at its end, whether or not the table grows first |
| LinkHash.Table.Resize | lib/json-c/linkhash.c:532-561 | rehashing into twice the size changes nothing observable and never asks for another resize |
| LinkHash.Table.LookupEntry | lib/json-c/linkhash.c:613-626 | finds the slot of a key exactly when the map has it |
| LinkHash.Table.Lookup | lib/json-c/linkhash.c:633-648 | answers what the map answers |
| LinkHash.Table.DeleteEntry | lib/json-c/linkhash.c:651-677 | removes the pair of a live entry and reports any other pointer |
| LinkHash.Table.Delete | lib/json-c/linkhash.c:680-685 | removes a key, or reports that it is missing |
| LinkHash.Table.ObjectAdd | lib/json-c/json_object.c:451-485 | an existing key keeps its place and gets the new value, a new one goes last |
| LinkHash.Table.Entries | lib/json-c/linkhash.h:141-142 | walking head and next visits exactly the live entries in order |
| LinkHash.Table.constructor | lib/json-c/linkhash.c:493-517 | a new table of any positive size is the empty map |
| LinkHash.Run | lib/json-c/linkhash.c:532-677 | every run of insertions, replacements, deletions and lookups agrees with the map, step by step |
| OrderedMap.AddLaws | lib/json-c/json_object.c:451-485 | after adding, the key finds the new value and every other key what it found; a key that was there keeps its place, a new one goes last, and the others keep their order |
| OrderedMap.RemoveLaws | lib/json-c/linkhash.c:651-677 | after removing, the key finds nothing, every other key what it found, in the same order |
| RespReader.SeekNewline | lib/hiredis/read.c:120-144 | finds the first CR LF, or that there is none |
| RespReader.ReadLongLong | lib/hiredis/read.c:148-173 | reads sign and digits up to CR, and -1 for anything else |
| RespReader.Reader.MoveToNextTask | lib/hiredis/read.c:190-213 | leaving a finished item keeps the meaning of the task stack |
| RespReader.Reader.ProcessLineItem | lib/hiredis/read.c:215-247 | consumes one line item as the recursive parser does, or nothing |
| RespReader.Reader.ProcessBulkItem | lib/hiredis/read.c:249-300 | consumes one bulk string as the recursive parser does, or nothing |
| RespReader.Reader.ProcessMultiBulkItem | lib/hiredis/read.c:302-365 | opens an array level, or errs at the depth limit, keeping what is to be delivered |
| RespReader.Reader.ProcessItem | lib/hiredis/read.c:367-414 | one item, whatever its type byte, keeps what is to be delivered |
| RespReader.Reader.Create | lib/hiredis/hiredis.c:102-189 | an object is hung into the array of the task above at its index, or becomes the reply |
| RespReader.Reader.Feed | lib/hiredis/read.c:445-475 | what will be delivered is what the longer stream delivers |
| RespReader.Reader.GetReply | lib/hiredis/read.c:477-525 | delivers the next reply of the stream if the buffer completes it, NULL or the error otherwise, across the 1024-byte discard |
| RespReader.Reader.Discard | lib/hiredis/read.c:510-516 | dropping consumed bytes changes nothing that is still to be delivered |
| RespReader.OpenDenotes | lib/hiredis/read.c:333-354 | pushing a task for an array of n elements means what the recursion into n elements means |
| RespTree.FinishOpen | lib/hiredis/read.c:333-354 | finishing an opened level is parsing its elements and hanging the filled array |
| RespSpec.NewlineStable | lib/hiredis/read.c:120-144 | more bytes never move a CR LF that was found |
| RespReader.Serve | lib/hiredis/read.c:445-525 | for any split of the bytes into feeds, the replies taken after k feeds are those of the recursive parser on the first k chunks together, with the same error point |
| RespFormat.CountDigits | lib/hiredis/hiredis.c:193-203 | the four-at-a-time loop counts the decimal digits |
| RespFormat.BulkLen | lib/hiredis/hiredis.c:206-208 | predicts the length of one formatted argument |
| RespFormat.PredictedLength | lib/hiredis/hiredis.c:541-545 | the sum is the length of the formatted command |
| RespFormat.FormatCommandArgv | lib/hiredis/hiredis.c:530-566 | fills a buffer of the predicted length exactly with the command and its NUL |
| RespFormat.FormatSdsCommandArgv | lib/hiredis/hiredis.c:477-519 | appends the same bytes |
| RespFormat.CommandParses | lib/hiredis/read.c:249-365 | a formatted command is read as one array of exactly its arguments, with the rest untouched |
| RespFormat.PipelineReplies | lib/hiredis/read.c:249-365 | any number of commands in a row comes back as that many arrays, before whatever follows |
| RespWire.WireParses | lib/hiredis/read.c:367-414 | every reply in the bytes of the protocol (status '+', error '-', integer of either sign ':', bulk '$', nil bulk, nil array, array '*' nested below the limit) is parsed as what it means, before any rest |
| RespWire.WiresReply | lib/hiredis/read.c:445-525 | any list of such replies in a row is delivered as that list |
| RespWire.NumberLine | lib/hiredis/read.c:146-173 | a line is a number if and only if it is digits behind at most one sign; anything else counts as -1 |
| RespWire.UnknownByteFails | lib/hiredis/read.c:367-395 | a reply that starts with any other byte is a protocol error |
| RespWire.TooDeepFails | lib/hiredis/read.c:302-314 | an array nested beyond the limit is a protocol error |
| RespSession.AppendCommands | lib/hiredis/hiredis.c:961-978 | the output buffer holds the commands one after the other |
| RespSession.FeedInPieces | lib/hiredis/read.c:445-525 | a text fed in pieces of any lengths delivers what it denotes |
| RespSession.ServeReplies | lib/hiredis/read.c:445-525 | any replies a server can send, cut anywhere: the reader delivers exactly what they mean, in order, and is as good as new afterwards |
| RespSession.SendAndServe | lib/hiredis/hiredis.c:477-519 | commands formatted, cut anywhere and read back: exactly one array per command, with its arguments, and afterwards the reader treats whatever comes as a new one would, so nothing is left over |
| AsyncSpec.ExactlyOnceInOrder | lib/hiredis/async.c:227-272 | in every history each callback with a function that left the queue was called once, in the order of registration, the k-th with the k-th reply or NULL |
| AsyncMachine.ActionsCount | lib/hiredis/async.c:265-272 | as long as closing is not asked for, a callback registers exactly its commands |
| AsyncMachine.EveryCommandCounts | lib/hiredis/async.c:586-651 | as long as commands are accepted, the callbacks registered in a run are the commands given outside of callbacks plus the commands of each callback that was run |
| AsyncTeardown.ActionsAre | lib/hiredis/async.c:265-272 | what the program of a callback does, all at once: its commands before the first disconnect or free are registered, with their bytes, and the wish to close is noted |
| AsyncTeardown.EveryEventIs | lib/hiredis/async.c:414-565 | an event frees a living context if and only if it is one of the causes, in terms of a ledger of what waits and what is left to write; otherwise the ledger goes on |
| AsyncTeardown.FreedByCause | lib/hiredis/async.c:326-565 | a run frees the context if and only if some event, before which none stopped it, is a free, a disconnect when nobody waits, a refused connect, or on a connected context an earlier error, a failed read or write, a reader error, an error reply nobody waits for, a reply whose callback frees, or the end of a pending disconnect with nothing waiting and nothing left to write |
| AsyncTeardown.StaysOpen | lib/hiredis/async.c:414-565 | with established events, no failure, commands only from program and callbacks, and no more replies than waiting callbacks, the context is neither freed nor disconnecting |
| AsyncTeardown.AcceptedIsFront | lib/hiredis/async.c:586-594 | the commands a program gets accepted are those in front of its first disconnect or free |
| AsyncContext.Context.Push | lib/hiredis/async.c:227-247 | appends a callback to the queue |
| AsyncContext.Context.Shift | lib/hiredis/async.c:249-263 | takes the callback that waits longest, if any |
| AsyncContext.Context.AsyncCommand | lib/hiredis/async.c:586-651 | a command is refused exactly when the context is disconnecting or being freed; otherwise its callback goes last and its bytes to the output buffer, and nothing else changes |
| AsyncContext.Context.AsyncFree | lib/hiredis/async.c:326-331 | inside a callback only the flag is set; outside, the context is freed |
| AsyncContext.Context.AsyncDisconnect | lib/hiredis/async.c:360-365 | refuses new commands at once and frees only when no callback runs or waits |
| AsyncContext.Context.Act | lib/hiredis/async.c:265-272 | a callback registers each command given before it asks for closing, in order, and none after; closing is only noted, and the context is never freed under its caller |
| AsyncContext.Context.RunCallback | lib/hiredis/async.c:265-272 | calls the function once with its reply unless it is NULL |
| AsyncContext.Context.FreeNow | lib/hiredis/async.c:275-320 | every waiting callback gets NULL in order; the loop ends because nothing can be added; nobody waits afterwards; a connected context reports OK when it is being freed or had no error |
| AsyncContext.Context.SweepOne | lib/hiredis/async.c:281-283 | the callback that waits first gets NULL, and nothing is added to the queue |
| AsyncContext.Context.DisconnectNow | lib/hiredis/async.c:334-352 | the assertion that a clean disconnect finds no waiting callback holds |
| AsyncContext.Context.ProcessReply | lib/hiredis/async.c:442-486 | a reply goes to the callback that waits first; without one an error reply closes the connection and any other violates the assertion, and only then |
| AsyncContext.Context.ProcessReplies | lib/hiredis/async.c:420-486 | the replies are consumed in order, each by the callback that waits first, until one frees the context or violates the assertion |
| AsyncContext.Context.ProcessCallbacks | lib/hiredis/async.c:414-492 | consumes replies in order until there are none, the context is freed or reading fails; it frees the context exactly if a reply does, or, with none left, reading failed or a pending disconnect has nothing to wait for and nothing to write |
| AsyncContext.Context.AfterLastReply | lib/hiredis/async.c:424-440 | with no reply left the context is freed exactly if reading failed, or it is disconnecting with an empty output buffer and nobody waiting |
| AsyncContext.Context.HandleConnect | lib/hiredis/async.c:497-514 | goes on only when connected; a refused connection is torn down; while connecting is in progress the event is dropped, but the error that says so stays set |
| AsyncContext.Context.Handle | lib/hiredis/async.c:519-565 | every event has exactly the effect of the machine, and frees the context if and only if it is one of the causes of a teardown: a command is queued last or refused, the replies a readable socket brings are consumed and no others, a write takes its bytes off the output buffer; the history is kept |
| AsyncContext.Context.HandleRead | lib/hiredis/async.c:519-538 | exactly the replies of the event are consumed, and only on a connected context without an error; an earlier error, a failed read or a reader error tears it down, and it is left alone while connecting; it is freed for the listed causes and no other |
| AsyncContext.Context.HandleWrite | lib/hiredis/async.c:540-565 | the same for writing |
| AsyncContext.Context.Run | lib/hiredis/async.c:414-492 | after any run of events the state is that of the machine; the replies consumed are the first ones of those that arrived, and all of them while the context lives; a freed context has called or skipped every registered callback; otherwise exactly as many callbacks left as replies arrived, and the registered ones are counted by the commands given; the context is freed if and only if some event tore it down; healthy events, replies that were waited for and programs of commands only leave it open |
| AsyncContext.Life | lib/hiredis/async.c:414-492 | for a new context and any events and callbacks: calls follow registration, the call of the k-th registered callback has the k-th reply that arrived or, once the context is freed, NULL, and nobody is left waiting in a freed context; it is freed if and only if some event tore it down, and stays open under healthy events, awaited replies and programs of commands only |
| CJsonPrint.PrintString | lib/cJSON/cJSON.c:358-418 | the counted length is exact, the NUL that sprintf stores behind each escape included, and the buffer ends up holding the quoted, escaped string |
| CJsonPrint.PrintNumber | lib/cJSON/cJSON.c:172-182 | the decimal text of every int and its NUL fit the 21 bytes |
| CJsonPrint.PrintArray | lib/cJSON/cJSON.c:629-719 | every write stays within the computed length, and the string is the text of the array |
| CJsonPrint.PrintEmptyObject | lib/cJSON/cJSON.c:808-828 | the special case fits its buffer at every depth, depth 0 included |
| CJsonPrint.PrintObject | lib/cJSON/cJSON.c:796-938 | every write stays within the computed length, and the string is the text of the object |
| CJsonPrint.PrintValue | lib/cJSON/cJSON.c:544-576 | prints the text of any tree of C strings and ints, formatted or not |
| CJsonSamples.BytesStay | lib/cJSON/cJSON.c:358-418 | the bytes printed without an escape are those from 32 on but for quote and backslash |
| CJsonSamples.PrettyItems | lib/cJSON/cJSON.c:629-719 | the items of a formatted array stand on one line |
| CJsonSamples.EmptyObject | lib/cJSON/cJSON.c:808-828 | a formatted empty object takes two lines, its brace one tab less than its depth |
| CJsonSamples.PrettyNested | lib/cJSON/cJSON.c:796-938 | members stand on lines of their own, a tab for each level and one behind the colon |
| CJsonSamples.PrettyMembers | lib/cJSON/cJSON.c:796-938 | a comma stands behind every member but the last |
| CJsonSamples.PlainMembers | lib/cJSON/cJSON.c:796-938 | without formatting there is no layout |
| CJsonReader.StepCounted | lib/cJSON/cJSON.c:253-263 | no step of the copying loop writes more bytes than the counting loop counted for what it reads |
| CJsonReader.ParseStringAt | lib/cJSON/cJSON.c:245-355 | both loops of `parse_string` stay in the buffer and give the decoded string and the place after it |
| CJsonUnicode.EscapeReads | lib/cJSON/cJSON.c:289-336 | the four-digit escape of any character below 0x10000 but NUL adds bytes that a UTF-8 decoder reads as that character |
| CJsonUnicode.PairReads | lib/cJSON/cJSON.c:289-336 | two escapes that form a surrogate pair add bytes that a UTF-8 decoder reads as the code point they encode |
| CJsonUnicode.HasPair | lib/cJSON/cJSON.c:296-309 | every code point from 0x10000 on has such a pair |
| CJsonReader.ParseNumberAt | lib/cJSON/cJSON.c:129-169 | sign, one optional zero and digits, as the source takes them |
| CJsonReader.ParseArrayAt | lib/cJSON/cJSON.c:579-626 | the loop over items agrees with the recursive description |
| CJsonReader.ParseObjectAt | lib/cJSON/cJSON.c:722-793 | the loop over fields agrees with the recursive description |
| CJsonReader.ParseValueAt | lib/cJSON/cJSON.c:506-541 | parses a value at a place, or fails, as described on the text that is left |
| CJsonReader.ParseWithOpts | lib/cJSON/cJSON.c:455-486 | parses a text, and with the flag refuses anything but blanks after it |
| CJsonRoundTrip.FlagRefusesMore | lib/cJSON/cJSON.c:455-486 | with the flag a text is taken if and only if it is taken without it and nothing but blanks follows up to the end or a NUL; the value is the same |
| CJsonRoundTrip.StringReads | lib/cJSON/cJSON.c:245-418 | parsing the printed form of any C string gives it back and stops behind its quote |
| CJsonRoundTrip.OpenStringReads | lib/cJSON/cJSON.c:245-355 | without its closing quote the printed form of any C string is read as the same string |
| CJsonRoundTrip.LoneMinusReads | lib/cJSON/cJSON.c:129-169 | "-" is read as 0 |
| CJsonRoundTrip.NumberReads | lib/cJSON/cJSON.c:129-180 | parsing a printed integer gives it back |
| CJsonRoundTrip.ValueReads | lib/cJSON/cJSON.c:506-938 | at any depth, formatted or not, the text of a tree followed by anything that does not continue a number is read as that tree |
| CJsonRoundTrip.ParseUndoesPrint | lib/cJSON/cJSON.c:506-938 | for every tree with int numbers and C strings, repeated names included, parsing the formatted or unformatted text returns the same ordered tree and consumes all of it |
| CJsonMinify.StringsStay | lib/cJSON/cJSON.c:1386-1397 | a printed string passes the minifier untouched |
| CJsonMinify.LineCommentGoes | lib/cJSON/cJSON.c:1375-1378 | a comment of two slashes goes away with its line |
| CJsonMinify.BlockCommentGoes | lib/cJSON/cJSON.c:1379-1385 | a comment between slash and star goes away |
| CJsonMinify.TextMinifies | lib/cJSON/cJSON.c:1362-1404 | at any depth and before any rest, minifying the formatted text is the unformatted text and the minified rest |
| CJsonMinify.MinifyUnformats | lib/cJSON/cJSON.c:1362-1404 | minifying the formatted text of any tree gives its unformatted text |
| CJsonMinify.Minify | lib/cJSON/cJSON.c:1362-1404 | in place, for every text whose strings and comments are closed, the array ends up holding the minified text and its NUL |
| SdsArgs.CatRepr | lib/hiredis/sds.c:740-763 | appends the quoted form |
| SdsStyles.BytesStay | lib/hiredis/sds.c:740-763 | the bytes quoted as they are, are the printable ones but for quote and backslash |
| SdsArgs.SplitArgs | lib/hiredis/sds.c:815-923 | the loops return the arguments of the line, or NULL for unbalanced quotes |
| SdsArgs.ReadToken | lib/hiredis/sds.c:826-902 | the token loop with its two quote flags reads one token |
| SdsArgs.ReprReads | lib/hiredis/sds.c:815-923 | a quoted string before a space or the end is one argument, that string |
| SdsArgs.SplitUndoesJoin | lib/hiredis/sds.c:740-923 | for every list of byte strings, quoting each, joining with spaces and splitting returns the list |
| SdsArgs.QuoteAndSplit | lib/hiredis/sds.c:740-923 | the same for the loops as written |
| SdsStyles.TickedReads | lib/hiredis/sds.c:867-881 | a single-quoted argument is read back, a quote in it escaped, every other byte as it is; it may hold anything but a NUL and a backslash at its end, which would escape the closing quote |
| SdsStyles.BareReads | lib/hiredis/sds.c:882-900 | an unquoted argument ends at the next blank |
| SdsStyles.SplitLaid | lib/hiredis/sds.c:815-923 | any list of arguments, each bare, single-quoted or double-quoted, laid out with any blanks in between, is split into that list |
| JsonPointer.UnescapeUndoesEscape | lib/json-c/json_pointer.c:99-101 | replacing "~1" and then "~0" undoes the escaping of any token |
| JsonPointer.ReplaceAll | lib/json-c/json_pointer.c:28-39 | the in-place loop with strstr and memmove computes the left-to-right replacement and touches nothing outside of its string |
| JsonPointer.ValidIndexAt | lib/json-c/json_pointer.c:41-80 | accepts and refuses as described, with strtol cut to 32 bits |
| JsonPointer.DecimalAccepted | lib/json-c/json_pointer.c:41-80 | the decimal form of an index in range is accepted as that index |
| JsonPointer.DecimalForms | lib/json-c/json_pointer.c:41-80 | what RFC 6901 asks for: the texts that denote an index are the digit texts without a leading zero, each one index |
| JsonPointer.IndexIsRfc | lib/json-c/json_pointer.c:41-80 | for every text and length the answer is that of RFC 6901 if and only if the text is not empty and, when it is a decimal form of 2^31 or more, the 32 bits kept of it are beyond the array |
| JsonPointer.EmptyTokenFindsFirst | lib/json-c/json_pointer.c:41-80 | the empty token finds element 0, though it is the decimal form of no index |
| JsonPointer.BeyondInt32IsInvalid | lib/json-c/json_pointer.c:67-71 | "2147483648" is refused as malformed rather than as out of bounds |
| JsonPointer.WrapsAround | lib/json-c/json_pointer.c:67-71 | "4294967296" finds element 0 of a non-empty array |
| JsonPointer.GetSingleAt | lib/json-c/json_pointer.c:82-109 | one token: the item of an array at its index, or the value of an object under the unescaped key; only its own part of the buffer changes |
| JsonPointer.GetRecursiveAt | lib/json-c/json_pointer.c:137-170 | cutting, unescaping and putting the slash back walk the path as the function on texts does |
| JsonPointer.GetPath | lib/json-c/json_pointer.c:172-197 | the whole call on a working copy |
| JsonPointer.GetWalks | lib/json-c/json_pointer.c:137-197 | for every list of tokens the escaped path finds what walking down token by token finds, errors included |
| JsonPointer.GetTokens | lib/json-c/json_pointer.c:137-197 | for the loops as written: escaping any C-string tokens, joining and looking up walks down token by token |
| JsonLocation.KeyFinds | lib/json-c/json_pointer.c:99-107 | the path of one key finds the value stored under it, and nothing if and only if no field has that key |
| JsonLocation.ItemFinds | lib/json-c/json_pointer.c:82-97 | the path of one index finds that item; a malformed index and a missing or null item are told apart |
| JsonLocation.GetLocates | lib/json-c/json_pointer.c:137-197 | a path finds a value if and only if the value lies at that place of the tree, for trees with unique keys and every index text on which the code agrees with RFC 6901 |
| JsonLocation.Locate | lib/json-c/json_pointer.c:137-197 | the same for the loops as written |
| Base64.Encode | lib/b64/b64encode.c:21-91 | the loop and the padded remainder produce the encoding |
| Base64.Decode | lib/b64/b64decode.c:27-130 | the loop up to the first foreign character and the remainder produce the decoding |
| Base64.EncodedLength | lib/b64/b64encode.c:34-84 | the encoding of n bytes has 4 * ceil(n / 3) characters |
| Base64.TableIsAlphabet | lib/b64/b64.h:27-36 | the alphabet is that of section 4 of RFC 4648, and no other character is in it |
| Base64.SextetsAreBits | lib/b64/b64encode.c:38-58 | the four values of a group are the 24 bits of its three bytes, first bits first |
| Base64.DecodeUndoesEncode | lib/b64/b64decode.c:41-114 | decoding undoes encoding on every byte string |
| Base64.EncodeUndoesDecode | lib/b64/b64decode.c:41-114 | encoding undoes decoding on a text if and only if it has full groups, padding at the end only and unused bits zero |

## Left out

- System calls, sockets, clocks, memory exhaustion, and the select, epoll, kqueue and port backends.
- Starting and stopping `ev_async` watchers while senders run.
- EvWakeup.EverySendIsFed: assumes that each sender leaves its call within an iteration of the loop; one that stops for ever between clearing `pipe_write_skipped` and writing the pipe keeps the wakeup to itself.
- EvWakeup.QuietProgress: stated with the senders at rest; LoopProgress is the statement under load.
- EvWakeup.QuietSendIsFed: stated with the senders at rest; EverySendIsFed is the statement under load.
- Weak memory: wakeup steps are sequentially consistent, as the fences of the source intend.
- `pri_adjust`, `ev_ref` and `ev_unref`, periodic, idle, signal and child watchers, and nested `ev_run`.
- `EvLoop.Watcher.pri` and `EvIo.Io.fd` are fixed per watcher; setting them again between runs is not modelled.
- Event times are reals; rounding of timestamps is not modelled.
- Waiting lists of libev (`next` pointers of watchers) are sequences; the pointer surgery is not modelled.
- EvIo.IoLoop.IoStop: its `clear_pending` is part of the event queues in EvLoop and not repeated here.
- AsyncContext.Context.Push: the callback list is a sequence; the surgery on head, tail and next is not modelled.
- AsyncContext.Context.Shift: likewise.
- JsonTokener.MicroKeepsInv: a high surrogate ends in an outcome of its own.
- JsonMeaning.TextIsRead: one call of a new tokener; a text with a high surrogate ends in that outcome of its own.
- JsonMeaning.StringIsRead: likewise.
- JsonRoundTrip.UnitGo: without high surrogates.
- json-c high surrogates: the tokener model stops with its own error there, since the source looks ahead for the other half.
- The value of a json-c double: only its text is kept, and which texts sscanf takes for one is a parameter.
- JsonStreaming.ReadsInChunks: chunk independence is stated for texts whose every character is robust, which serializer output is; malformed numbers split across chunks are not covered.
- The load factor 0.66 of linkhash is the exact fraction; `lh_table_resize` is modelled as insertion calls it, and hash functions are arbitrary.
- RespReader.ReadLongLong: no 64-bit overflow.
- Reply objects of hiredis and nodes of cJSON are values rather than linked nodes; freeing them is not modelled.
- hiredis publish/subscribe and monitor modes, onConnect and onDisconnect callbacks that call the API, `redisvFormatCommand`, and lib/hiredis/dict.c.
- AsyncContext.Context.ProcessReply: a reply nobody waits for is the violated assertion of the source; what a build without assertions does is not modelled.
- CJsonReader.ParseNumberAt: fractions and exponents give an outcome of their own, and integers are exact rather than doubles.
- CJsonReader.ParseStringAt: a `\u` without four hexadecimal digits and a backslash at the end give an outcome of their own.
- CJsonMinify.Minify: texts with an unclosed string or comment are excluded, since the source runs past their end.
- JsonLocation.GetLocates: for index texts on which code and RFC 6901 agree; JsonPointer.IndexIsRfc says which those are.
- JsonLocation.Locate: likewise.
- json_pointer_set, which does not unescape the last token, and json_pointer_getf.
- The remaining parts of sds, cJSON object editing, programs/*, pvtrace, ecb and lib/hiredis/net.c would only add easy members.
