# Verified core of the lab and interview code

The main subject is the Porcupine linearizability checker used by the 6.824 labs, from a
recorded history to the verdict and its visualization. Around it stand four smaller ones:
the simulated network with its persisters, the radix search `BeautifulNumberLarge`, the
type walk of `labgob`, and the binary-tree exercises.

`dafny verify dfyconfig.toml` checks everything.

## What is proved

* **The search** (`Linearizability`, `Search`, `Progress`, `LinkedEntries`, `SearchList`,
  `Bitset`, `Cache`, `CheckSingle`). `checkSingle` is modelled as it is written: a doubly linked list
  whose nodes are lifted and unlifted in place, an undo stack, a word-array bitset and a
  cache of bitsets and states in hash buckets. It always ends and its positive answers
  are sound, for every model. Its negative answers are complete although the cache prunes,
  and the partial linearizations it reports are longest possible, for every model whose state
  equality is reflexive, transitive and respected by `Step` (`EqualitySound`).
* **Locality** (`Locality`, `KvModel`, `KvSemantics`). Checking a key/value history key by key
  is right: the whole history is linearizable if and only if every key's operations are. What
  the model accepts is characterised by the texts that gets have to return.
* **The driver** (`CheckParallel`). A state machine over the workers, the result channel,
  the kill flag, the timeout, the drain and the report. A kill never causes a verdict.
  It gets to a verdict exactly when there is something to check or a timeout.
* **End to end** (`MakeEntries`, `Events`, `CheckOperations`, `Ties`). The verdict for a
  key/value history, and for an event history, over every interleaving, and exactly which
  times make it independent of how the sort orders simultaneous entries.
* **The replay** (`Visualization`, `VerboseCheck`). It cannot panic on what the driver reports.
* **The network** (`Labrpc`, `RpcAnswers`, `Persister`). A state machine over requests, handlers
  and the harness that deletes, copies and restarts servers: at-most-once execution,
  acknowledged writes survive every restart, every failed Call has a cause, and from every
  state a Call can still succeed.
* **Radix search, type walk, trees** (`BeautifulNumber`, `Labgob`, `Trees`, `TreeLaws`).

## How it is modelled

* An operation is a value with an input, an output, a call time and a return time. The search
  works on an entry list, whose operations (`OpsOf`) are timed by their positions in it.
  A list is well formed if each id 0, ..., n-1 is called once and returns once, in either
  order. An operation that returns before it is called has no linearization.
* `sort.Sort` is not stable, so when a return and a call have the same time their order is
  open. Results about histories hold for every order of such entries, whatever the times are.
* A bitset word is 64 booleans. A slot of `longest` points at a slice: an address, which is the
  turn of the loop in which the slice was made, and its ids.
* The kill flag is an arbitrary function of the loop's turn. What a search answers
  (`Outcome`) depends on whether it stopped because of the flag.
* A step of a state machine is a critical section or a channel operation of the program.
  Timeouts, delays, losses and scheduling are arbitrary choices.
* An RPC handler is abstract: it applies the request to its server's log, saves the log, and
  returns any bytes. A server's persistent state is the list of the requests it has applied.
  Old instances keep running after they have been deleted.
* The harness shuts a server down before it starts it again, as the comment at
  kvraft/config.go:286 demands.
* Exceptions and null results are `Outcome` and `Option` values. `Long` is a range-checked
  integer type, so that verification includes the absence of overflow.
* The type graph and the upper-case test of letters are parameters of the type walk.

## Findings

* porcupine/checker.go:59 says that a node is a call if its match is nil. The code does the
  opposite: a call has its return as match, and a return has none. The model follows the code.
* An empty key/value history has no partitions, and `checkParallel` only looks at its
  results when one arrives. Without a timeout it never answers; with one it answers Unknown
  (`EmptyHistoryNeverAnswered`). In all other cases it answers (`AnsweredExactly`).
* `BeautifulNumberLarge` is wrong for one number, Long.MAX_VALUE: saturation makes the first
  radix the binary search tries, 2^62, look right, and the answer should be 2
  (`BeautifulLarge`, `LargestIsSpecial`).
* When a return and a call happen at the same time, the unstable sort may turn a linearizable
  history into one that is not (`TieMisjudged`). For histories whose operations do not return
  before they are called, this is possible for given times exactly when there is such a tie
  (`RightTimesExactly`), and for a given history exactly when reading its ties as ordered takes
  its linearizability away (`RightExactly`).
* An operation with equal call and return times is such a tie with itself: if the sort puts its
  return first, its call gets no match and the search answers no. Its description in the
  visualization is then made without its input, on which the description function at
  models/kv.go:55-70 panics. This happens exactly when the return is listed before the call
  (`DescriptionFails`), which the sort may do exactly for operations that do not return later
  than they are called (`DescriptionMayFail`).
* `Persister.Copy` shares its buffers. This is harmless because saving always stores a
  fresh copy and reading always returns one: no save on either side reaches the other
  (`HandOver`).

## Model

| member | source | states |
|---|---|---|
| `CheckSingle.CheckSingle` | content/posts/6.824/lab/lab_1_mapreduce/6.824/src/porcupine/checker.go:174-248 | For every well-formed entry list, every model and every behaviour of the kill flag, the search ends. `true` means that a linearization exists and every slot of `longest` holds one. `false` without a kill means, if the model's equality is sound, that none exists, and with `computePartial` the slot of each operation is empty exactly when no partial linearization contains it, and otherwise holds a longest one that does. After a kill, which only happens if the flag was set, and with any equality, the slots still hold valid partial linearizations. Two slots share a slice exactly when they hold the same ids. |
| `Linearizability.CompletePartialIsLinearization` | content/posts/6.824/lab/lab_1_mapreduce/6.824/src/porcupine/model.go:28-33 | A sequence is a linearization (every operation once, real-time order kept, replay accepted) if and only if it can be grown one enabled operation at a time to full length: the step-by-step notion the search works with is the global one. |
| `Linearizability.PartialExtend` | content/posts/6.824/lab/lab_1_mapreduce/6.824/src/porcupine/checker.go:189-196 | A partial linearization followed by `o` is one if and only if no operation outside it returned before `o` was called, `o` is not in it, and the model accepts `o` in its state. |
| `Linearizability.PartialPrefix` | content/posts/6.824/lab/lab_1_mapreduce/6.824/src/porcupine/checker.go:230-236 | What backtracking leaves on the stack is again a partial linearization. |
| `Linearizability.PartialForward` | content/posts/6.824/lab/lab_1_mapreduce/6.824/src/porcupine/checker.go:121-130 | An operation whose return comes before its call is in no partial linearization. |
| `Search.InvInitially` | content/posts/6.824/lab/lab_1_mapreduce/6.824/src/porcupine/checker.go:175-184 | The search invariant holds of the empty stack and the empty cache with the cursor on the first entry. |
| `Search.InvAdvance` | content/posts/6.824/lab/lab_1_mapreduce/6.824/src/porcupine/checker.go:203-208 | Skipping a call whose step is rejected or whose configuration is cached keeps the invariant: everything enabled before the cursor is still covered. |
| `Search.InvPush` | content/posts/6.824/lab/lab_1_mapreduce/6.824/src/porcupine/checker.go:193-202 | Pushing an accepted, uncached call and restarting at the head keeps the invariant: every cached configuration is on the stack or exhausted (all its successors are covered by the cache). |
| `Search.TopExhausted` | content/posts/6.824/lab/lab_1_mapreduce/6.824/src/porcupine/checker.go:210-236 | When the cursor meets a return, nothing enabled is left for the configuration on top of the stack, so it is exhausted, and its partial linearization is recorded first. |
| `Search.InvPop` | content/posts/6.824/lab/lab_1_mapreduce/6.824/src/porcupine/checker.go:230-236 | Backtracking keeps the invariant with the cursor behind the call that was undone. |
| `Search.EveryPartialCovered` | content/posts/6.824/lab/lab_1_mapreduce/6.824/src/porcupine/checker.go:140-147 | Once the empty stack is exhausted, every partial linearization of the history, by whatever order of operations, reaches a configuration the cache covers: pruning lost nothing. |
| `Search.CompleteSearch` | content/posts/6.824/lab/lab_1_mapreduce/6.824/src/porcupine/checker.go:210-212 | Then every partial linearization is shorter than the history, and every operation in it has a recorded one at least as long. |
| `Search.CompleteOutcome` | content/posts/6.824/lab/lab_1_mapreduce/6.824/src/porcupine/checker.go:210-229 | Then the history is not linearizable and the recorded partial linearizations are maximal. |
| `Search.SoundOutcome` | content/posts/6.824/lab/lab_1_mapreduce/6.824/src/porcupine/checker.go:239-247 | A stack that is a partial linearization holding every operation is a linearization. |
| `Search.RecordKeeps` | content/posts/6.824/lab/lab_1_mapreduce/6.824/src/porcupine/checker.go:213-229 | Recording a stack keeps all slots valid, makes every slot of the stack at least as long as the stack, and never shortens a slot. |
| `Search.OutcomeExists` | content/posts/6.824/lab/lab_1_mapreduce/6.824/src/porcupine/checker.go:174-248 | Every history has an answer that the search could give without being killed. |
| `Progress.FollowsHeavier` | content/posts/6.824/lab/lab_1_mapreduce/6.824/src/porcupine/checker.go:185-238 | Of two paths, the one that extends the other or has the larger position where they first differ has the larger code. |
| `Progress.CodePush` | content/posts/6.824/lab/lab_1_mapreduce/6.824/src/porcupine/checker.go:196-202 | A push moves the search forward in dictionary order of the positions of stack and cursor. |
| `Progress.CodeAdvance` | content/posts/6.824/lab/lab_1_mapreduce/6.824/src/porcupine/checker.go:203-208 | So does moving the cursor on. |
| `Progress.CodePop` | content/posts/6.824/lab/lab_1_mapreduce/6.824/src/porcupine/checker.go:230-236 | So does backtracking, past everything that had the popped call on the stack. |
| `Progress.CodeBound` | content/posts/6.824/lab/lab_1_mapreduce/6.824/src/porcupine/checker.go:185-238 | The codes are bounded, so the search ends whatever the cache prunes. |
| `Progress.SharingRecord` | content/posts/6.824/lab/lab_1_mapreduce/6.824/src/porcupine/checker.go:213-229 | No stack is recorded twice, so a newly made slice differs from all earlier ones in place and in content. |
| `CheckSingle.RestartCursor` | content/posts/6.824/lab/lab_1_mapreduce/6.824/src/porcupine/checker.go:193-202 | The invariant after a push, with the cursor at the first entry still in the list. |
| `CheckSingle.AdvanceCursor` | content/posts/6.824/lab/lab_1_mapreduce/6.824/src/porcupine/checker.go:203-208 | The invariant after moving the cursor to the next node still in the list. |
| `CheckSingle.BacktrackCursor` | content/posts/6.824/lab/lab_1_mapreduce/6.824/src/porcupine/checker.go:213-236 | The invariant after recording and popping, with the cursor at the node after the restored call. |
| `CheckSingle.GiveUp` | content/posts/6.824/lab/lab_1_mapreduce/6.824/src/porcupine/checker.go:210-212 | With a sound equality, a node without a match at the cursor and an empty stack refute linearizability and make the records maximal. |
| `CheckSingle.Finished` | content/posts/6.824/lab/lab_1_mapreduce/6.824/src/porcupine/checker.go:239-247 | An empty list means that the stack is a linearization of the whole history. |
| `CheckSingle.Prepare` | content/posts/6.824/lab/lab_1_mapreduce/6.824/src/porcupine/checker.go:175-184 | The list behind a sentinel represents the history node for node, the bitset is empty and has room for every id. |
| `CheckSingle.Probe` | content/posts/6.824/lab/lab_1_mapreduce/6.824/src/porcupine/checker.go:193-196 | The cloned bitset holds the stack and the new id, the search bitset and all cached bitsets keep their contents, and the answer is whether the cache covers the new configuration. |
| `CheckSingle.Linearize` | content/posts/6.824/lab/lab_1_mapreduce/6.824/src/porcupine/checker.go:196-202 | After the push the list is the history without the stacked operations, the bitset is the set of stacked ids, the cache holds the new configuration too, and the cursor is the first node of the list. |
| `CheckSingle.Backtrack` | content/posts/6.824/lab/lab_1_mapreduce/6.824/src/porcupine/checker.go:230-236 | After the pop the list, the bitset and the cache agree with the shorter stack, and the cursor is the node that follows the restored call. |
| `CheckSingle.Advance` | content/posts/6.824/lab/lab_1_mapreduce/6.824/src/porcupine/checker.go:189-208 | The whole call branch keeps the heap, stack and search invariants and moves the search forward, for every model. |
| `CheckSingle.Retreat` | content/posts/6.824/lab/lab_1_mapreduce/6.824/src/porcupine/checker.go:213-236 | The whole backtracking branch keeps the three invariants and moves the search forward, for every model. |
| `CheckSingle.RecordLongest` | content/posts/6.824/lab/lab_1_mapreduce/6.824/src/porcupine/checker.go:213-229 | The loop over the stack replaces exactly the slots that were empty or shorter than the stack, all by one slice that is made when it is first needed. |
| `CheckSingle.StackIds` | content/posts/6.824/lab/lab_1_mapreduce/6.824/src/porcupine/checker.go:239-244 | The ids copied from the stack are the stack, in order. |
| `Entries.OpsTimeline` | content/posts/6.824/lab/lab_1_mapreduce/6.824/src/porcupine/checker.go:103-114 | In a well-formed entry list no call has the position of a return. |
| `Entries.EntryAt` | content/posts/6.824/lab/lab_1_mapreduce/6.824/src/porcupine/checker.go:43-55 | Each entry is the call or the return of the operation its id names, with that operation's value. |
| `LinkedEntries.InsertBefore` | content/posts/6.824/lab/lab_1_mapreduce/6.824/src/porcupine/checker.go:65-76 | What becomes of both links of the node, the mark and what was in front of the mark, whichever of them coincide. |
| `LinkedEntries.Length` | content/posts/6.824/lab/lab_1_mapreduce/6.824/src/porcupine/checker.go:78-85 | The number of nodes of the list. |
| `LinkedEntries.MakeLinkedEntries` | content/posts/6.824/lab/lab_1_mapreduce/6.824/src/porcupine/checker.go:116-133 | For any entries at all: a doubly linked list of them in order, in which each call is matched to the next return of its id, if there is one, and returns have no match. |
| `LinkedEntries.Unlink` | content/posts/6.824/lab/lab_1_mapreduce/6.824/src/porcupine/checker.go:155-161 | Removing one inner node links the list without it, and the removed node still remembers its neighbours. |
| `LinkedEntries.Relink` | content/posts/6.824/lab/lab_1_mapreduce/6.824/src/porcupine/checker.go:165-171 | Reinserting a node that remembers its neighbours links the list with it. |
| `LinkedEntries.Lift` | content/posts/6.824/lab/lab_1_mapreduce/6.824/src/porcupine/checker.go:154-162 | A call and its return leave the list, adjacent or not, and can be put back. |
| `LinkedEntries.Unlift` | content/posts/6.824/lab/lab_1_mapreduce/6.824/src/porcupine/checker.go:164-172 | They return to where they were. |
| `LinkedEntries.LiftAndUnlift` | content/posts/6.824/lab/lab_1_mapreduce/6.824/src/porcupine/checker.go:154-172 | Lifting and unlifting restores every next and prev pointer of the list. |
| `SearchList.RemovalOf` | content/posts/6.824/lab/lab_1_mapreduce/6.824/src/porcupine/checker.go:198-202 | The list without the stacked operations and one more is that list with exactly two nodes taken out. |
| `SearchList.NoneListed` | content/posts/6.824/lab/lab_1_mapreduce/6.824/src/porcupine/checker.go:185-238 | At every depth, no node of a lifted operation is in the list. |
| `SearchList.ShapePush` | content/posts/6.824/lab/lab_1_mapreduce/6.824/src/porcupine/checker.go:198-202 | Lifting one more operation keeps: the list is the original history minus the stacked operations, in original order, at every depth of the stack. |
| `SearchList.ShapePop` | content/posts/6.824/lab/lab_1_mapreduce/6.824/src/porcupine/checker.go:230-236 | Undoing the latest lift keeps it. |
| `SearchList.LiftNext` | content/posts/6.824/lab/lab_1_mapreduce/6.824/src/porcupine/checker.go:200 | A further lift keeps every earlier lift undoable, in last-in first-out order. |
| `SearchList.UnliftLast` | content/posts/6.824/lab/lab_1_mapreduce/6.824/src/porcupine/checker.go:234 | Undoing the latest lift restores its list and keeps the earlier ones undoable. |
| `SearchList.Following` | content/posts/6.824/lab/lab_1_mapreduce/6.824/src/porcupine/checker.go:202 | The node after the sentinel is the first one whose operation is not on the stack. |
| `SearchList.FollowingAt` | content/posts/6.824/lab/lab_1_mapreduce/6.824/src/porcupine/checker.go:203-208 | The node after a listed one is the next one whose operation is not on the stack. |
| `Bitset.NewBitset` | content/posts/6.824/lab/lab_1_mapreduce/6.824/src/porcupine/bitset.go:10-17 | A fresh bitset is empty and has the least number of words. |
| `Bitset.Clone` | content/posts/6.824/lab/lab_1_mapreduce/6.824/src/porcupine/bitset.go:19-23 | A fresh copy with the same contents. |
| `Bitset.Set` | content/posts/6.824/lab/lab_1_mapreduce/6.824/src/porcupine/bitset.go:29-33 | Adds exactly one member to the set. |
| `Bitset.Clear` | content/posts/6.824/lab/lab_1_mapreduce/6.824/src/porcupine/bitset.go:35-39 | Removes exactly one member from the set. |
| `Bitset.Get` | content/posts/6.824/lab/lab_1_mapreduce/6.824/src/porcupine/bitset.go:41-44 | Membership. |
| `Bitset.PopCnt` | content/posts/6.824/lab/lab_1_mapreduce/6.824/src/porcupine/bitset.go:46-52 | The size of the set. |
| `Bitset.Hash` | content/posts/6.824/lab/lab_1_mapreduce/6.824/src/porcupine/bitset.go:54-60 | The exclusive or of the count and all words, a function of the words alone. |
| `Bitset.HashBit` | content/posts/6.824/lab/lab_1_mapreduce/6.824/src/porcupine/bitset.go:54-60 | Bit j of the hash is set if exactly one is odd: the size of the set over 2^j, or the number of words with bit j. |
| `Bitset.Equals` | content/posts/6.824/lab/lab_1_mapreduce/6.824/src/porcupine/bitset.go:62-72 | True if and only if the lengths and the sets are equal. |
| `Bitset.WithBitMembers` | content/posts/6.824/lab/lab_1_mapreduce/6.824/src/porcupine/bitset.go:29-39 | Writing one bit of one word changes one member of the set and no other. |
| `Bitset.SameMembersSameWords` | content/posts/6.824/lab/lab_1_mapreduce/6.824/src/porcupine/bitset.go:62-72 | Bitsets of one length hold the same set if and only if they hold the same words, so equal sets have equal hashes. |
| `Cache.CacheContains` | content/posts/6.824/lab/lab_1_mapreduce/6.824/src/porcupine/checker.go:140-147 | True if and only if a configuration with the same set and an equal state was inserted before. |
| `Cache.PrunedInBucket` | content/posts/6.824/lab/lab_1_mapreduce/6.824/src/porcupine/checker.go:140-147 | Searching the bucket of the hash is as good as searching the whole cache. |
| `Cache.InsertHolds` | content/posts/6.824/lab/lab_1_mapreduce/6.824/src/porcupine/checker.go:196-197 | Appending to the bucket keeps every cached bitset in the bucket of its own hash and adds exactly one configuration. |
| `MakeEntries.MakeEntries` | content/posts/6.824/lab/lab_1_mapreduce/6.824/src/porcupine/checker.go:43-55 | The calls and returns of all operations, each once, in ascending time. |
| `MakeEntries.SortByTime` | content/posts/6.824/lab/lab_1_mapreduce/6.824/src/porcupine/checker.go:29-41 | Sorted by time and a permutation. |
| `MakeEntries.EntriesWellFormed` | content/posts/6.824/lab/lab_1_mapreduce/6.824/src/porcupine/checker.go:43-55 | Every arrangement of the entries of any history, whatever its times, is well formed. |
| `MakeEntries.OperationsOfEntries` | content/posts/6.824/lab/lab_1_mapreduce/6.824/src/porcupine/checker.go:43-55 | The order of entries keeps every precedence of the history and adds only those where a return and a call happen at the same time. |
| `MakeEntries.EntriesLinearizable` | content/posts/6.824/lab/lab_1_mapreduce/6.824/src/porcupine/checker.go:43-55 | Linearizable as entries implies linearizable as a history, and is implied by linearizable with such ties read as ordered; without ties the two are equivalent. |
| `Events.Renumber` | content/posts/6.824/lab/lab_1_mapreduce/6.824/src/porcupine/checker.go:87-101 | Ids are replaced one to one by 0, 1, ..., k-1 in order of first occurrence, and nothing else changes. |
| `Events.ConvertEntries` | content/posts/6.824/lab/lab_1_mapreduce/6.824/src/porcupine/checker.go:103-114 | Entry i is event i, at time i. |
| `Events.EventsWellFormed` | content/posts/6.824/lab/lab_1_mapreduce/6.824/src/porcupine/checker.go:350-358 | Events with one call and one return per id, whatever the ids, become a well-formed entry list of length 2k. |
| `Locality.Local` | content/posts/6.824/lab/lab_1_mapreduce/6.824/src/porcupine/model.go:28-33 | For all histories and times: operations on many independent objects are linearizable against their product if and only if, for every key used, the operations on that key are. |
| `Locality.Restrict` | content/posts/6.824/lab/lab_1_mapreduce/6.824/src/porcupine/model.go:28-33 | The operations on one key, in the order of a linearization of the whole, are a linearization for that key. |
| `Locality.MergeStep` | content/posts/6.824/lab/lab_1_mapreduce/6.824/src/porcupine/model.go:28-33 | As long as operations are missing, some key's next operation is enabled in the whole history. |
| `Locality.Merge` | content/posts/6.824/lab/lab_1_mapreduce/6.824/src/porcupine/model.go:28-33 | Per-key linearizations merge into one of the whole history that keeps each of them. |
| `Locality.ProductState` | content/posts/6.824/lab/lab_1_mapreduce/6.824/src/porcupine/model.go:28-33 | The product's state at a key is the state that key's operations alone lead to. |
| `Locality.ProductRuns` | content/posts/6.824/lab/lab_1_mapreduce/6.824/src/porcupine/model.go:28-33 | The product accepts an operation if its own object does. |
| `KvModel.RegisterEqualitySound` | content/posts/6.824/lab/lab_1_mapreduce/6.824/src/porcupine/model.go:59-61 | Shallow equality on string states meets what the search needs of a state equality. |
| `KvModel.StoreIsProduct` | content/posts/6.824/lab/lab_1_mapreduce/6.824/src/models/kv.go:35-54 | A map from keys to strings, absent keys empty, accepts a run if and only if the product of per-key registers does, and holds the same values after it. |
| `KvModel.StoreLinearizable` | content/posts/6.824/lab/lab_1_mapreduce/6.824/src/models/kv.go:35-54 | So linearizability against either is the same. |
| `KvSemantics.StoreText` | content/posts/6.824/lab/lab_1_mapreduce/6.824/src/models/kv.go:40-54 | After any accepted operations the store holds at each key the values written to it, one after the other, from its last put on. |
| `KvSemantics.RegisterText` | content/posts/6.824/lab/lab_1_mapreduce/6.824/src/models/kv.go:40-54 | The register holds the same for all writes, whatever their keys. |
| `KvSemantics.StoreAccepts` | content/posts/6.824/lab/lab_1_mapreduce/6.824/src/models/kv.go:40-54 | The store accepts a sequence of operations if and only if every get in it returns the text that the operations before it left at its key. |
| `KvSemantics.RegisterAccepts` | content/posts/6.824/lab/lab_1_mapreduce/6.824/src/models/kv.go:40-54 | The same for the register. |
| `KvSemantics.StoreMeaning` | content/posts/6.824/lab/lab_1_mapreduce/6.824/src/models/kv.go:35-54 | A history is linearizable as a store if and only if its operations have an order that respects real time and in which every get returns the text of its key. |
| `KvSemantics.AppendsAtTheEnd` | content/posts/6.824/lab/lab_1_mapreduce/6.824/src/models/kv.go:50-53 | put(x, "a"), append(x, "b") and get(x), one after the other, are linearizable if and only if the get returns "ab". |
| `KvModel.CollectByKey` | content/posts/6.824/lab/lab_1_mapreduce/6.824/src/models/kv.go:19-23 | Each key used maps to its operations in history order, and no other key occurs. |
| `KvModel.SortKeys` | content/posts/6.824/lab/lab_1_mapreduce/6.824/src/models/kv.go:24-28 | Every key once, in ascending order. |
| `KvModel.AtMostLexicographic` | content/posts/6.824/lab/lab_1_mapreduce/6.824/src/models/kv.go:28 | The order of keys is the lexicographic one: a prefix first, and otherwise the first differing character decides. |
| `KvModel.Partition` | content/posts/6.824/lab/lab_1_mapreduce/6.824/src/models/kv.go:18-34 | The groups are the operations of each key used, in history order, by ascending key. |
| `KvModel.PartitionContract` | content/posts/6.824/lab/lab_1_mapreduce/6.824/src/porcupine/model.go:28-33 | A history is linearizable as operations on one store if and only if every group of its partition is linearizable against Init and Step. |
| `CheckParallel.InvRun` | content/posts/6.824/lab/lab_1_mapreduce/6.824/src/porcupine/checker.go:269-348 | Over every interleaving: results come from finished searches, the channel holds them in sending order, a slot of `longest` is filled before its result is sent, nothing is killed while the driver still collects results, and a negative answer is backed by a search that was not killed. |
| `CheckParallel.VerdictSound` | content/posts/6.824/lab/lab_1_mapreduce/6.824/src/porcupine/checker.go:286-347 | Ok implies that every partition is linearizable, Illegal that some partition is not if the model's equality is sound (a search stopped by the kill flag never counts), Unknown that the timeout has struck. |
| `CheckParallel.VerdictExact` | content/posts/6.824/lab/lab_1_mapreduce/6.824/src/porcupine/checker.go:337-347 | If the timeout does not strike, configured or not, and with a sound equality, the verdict is Ok if every partition is linearizable and Illegal otherwise. |
| `CheckParallel.VerdictByRun` | content/posts/6.824/lab/lab_1_mapreduce/6.824/src/porcupine/checker.go:286-347 | The verdict by what happened in the run: Illegal exactly if a negative result was taken from the channel, even if the timeout struck afterwards; otherwise Unknown exactly if the timeout struck, and Ok exactly if it did not. |
| `CheckParallel.RunHistory` | content/posts/6.824/lab/lab_1_mapreduce/6.824/src/porcupine/checker.go:286-305 | The workers are told to stop exactly if the timeout struck, or if a negative result was taken and no report is wanted. |
| `CheckParallel.TimeoutCanStrike` | content/posts/6.824/lab/lab_1_mapreduce/6.824/src/porcupine/checker.go:300-303 | A configured timeout can strike as long as results are collected. |
| `CheckParallel.ReportValid` | content/posts/6.824/lab/lab_1_mapreduce/6.824/src/porcupine/checker.go:306-336 | The report is made after every worker has written; it lists exactly the partial linearizations found, each valid and each once, killed searches included. |
| `CheckParallel.ReportsExactly` | content/posts/6.824/lab/lab_1_mapreduce/6.824/src/porcupine/checker.go:312-332 | Removing duplicates by slice pointer, in any order of the pointers, lists every recorded sequence exactly once. |
| `CheckParallel.ReportMaximal` | content/posts/6.824/lab/lab_1_mapreduce/6.824/src/porcupine/checker.go:306-336 | If the timeout does not strike, and with a sound equality, the report has, for every operation in any partial linearization, one at least as long that contains it. |
| `CheckParallel.WrittenOnce` | content/posts/6.824/lab/lab_1_mapreduce/6.824/src/porcupine/checker.go:275-281 | A slot of `longest` never changes once written. |
| `CheckParallel.StepsDecrease` | content/posts/6.824/lab/lab_1_mapreduce/6.824/src/porcupine/checker.go:269-348 | Every step uses up a bounded amount, so every run is finite. |
| `CheckParallel.NoDeadlock` | content/posts/6.824/lab/lab_1_mapreduce/6.824/src/porcupine/checker.go:286-336 | With a partition or a timeout, every reachable state without a verdict has a next step, whether or not searches are still running; with a partition, one other than the timeout. |
| `CheckParallel.AlwaysMoves` | content/posts/6.824/lab/lab_1_mapreduce/6.824/src/porcupine/checker.go:286-336 | Every unfinished run can go on if and only if there is a partition or a timeout. |
| `CheckParallel.Completes` | content/posts/6.824/lab/lab_1_mapreduce/6.824/src/porcupine/checker.go:286-347 | Then every run can be continued to a verdict, and with a partition without the timeout. |
| `CheckParallel.NoPartitionsNoVerdict` | content/posts/6.824/lab/lab_1_mapreduce/6.824/src/porcupine/checker.go:286-305 | With no partitions and no timeout the driver waits for ever; with a timeout it answers Unknown. |
| `CheckOperations.Prepare` | content/posts/6.824/lab/lab_1_mapreduce/6.824/src/porcupine/checker.go:360-367 | The entry lists are those of the groups of the partition, one per key used. |
| `CheckOperations.ListsDecide` | content/posts/6.824/lab/lab_1_mapreduce/6.824/src/porcupine/checker.go:360-368 | If every entry list is linearizable as a register then the history is as a store; conversely with ties read as ordered. |
| `CheckOperations.VerdictOnLists` | content/posts/6.824/lab/lab_1_mapreduce/6.824/src/porcupine/checker.go:360-368 | With KvModel, whose equality is sound: Ok implies that every entry list is linearizable, Illegal that some is not, Unknown that the timeout has struck. |
| `CheckOperations.VerdictOnStore` | content/posts/6.824/lab/lab_1_mapreduce/6.824/src/porcupine/checker.go:360-368 | End to end, for every history, whatever its times, and over every interleaving: Ok implies that the history is linearizable as one map from keys to strings, Illegal that it is not with ties read as ordered; without ties, and if the timeout does not strike, the verdict is Ok if and only if the history is linearizable, and Illegal otherwise. |
| `CheckOperations.TieMisjudged` | content/posts/6.824/lab/lab_1_mapreduce/6.824/src/porcupine/checker.go:29-55 | A linearizable history with a return and a call at the same time, and an order of its entries that the sort may produce, which is not linearizable: exactness does need the absence of ties. |
| `CheckOperations.EmptyHistoryNeverAnswered` | content/posts/6.824/lab/lab_1_mapreduce/6.824/src/porcupine/checker.go:360-368 | There is nothing to check exactly for the empty history, which without a timeout never gets an answer. |
| `CheckOperations.AnsweredExactly` | content/posts/6.824/lab/lab_1_mapreduce/6.824/src/porcupine/checker.go:360-368 | Every unfinished run of checkOperations can go on if and only if the history is not empty or there is a timeout. |
| `Ties.ReturnsFirstDecides` | content/posts/6.824/lab/lab_1_mapreduce/6.824/src/porcupine/checker.go:29-55 | The arrangement with returns before simultaneous calls is one the sort may leave, and it decides the history with ties read as ordered. |
| `Ties.TiesDecide` | content/posts/6.824/lab/lab_1_mapreduce/6.824/src/porcupine/checker.go:360-368 | So there are entry lists for the whole checkOperations whose verdict is that of the history with ties read as ordered. |
| `Ties.RightExactly` | content/posts/6.824/lab/lab_1_mapreduce/6.824/src/porcupine/checker.go:360-368 | However the sort orders simultaneous entries the verdict is right, if and only if reading ties as ordered does not make the history unlinearizable. |
| `Ties.WitnessLinearizable` | content/posts/6.824/lab/lab_1_mapreduce/6.824/src/porcupine/checker.go:29-55 | For any times with a return at a call, a history with these times that is linearizable, |
| `Ties.WitnessRefuted` | content/posts/6.824/lab/lab_1_mapreduce/6.824/src/porcupine/checker.go:29-55 | and is not with ties read as ordered. |
| `Ties.RightTimesExactly` | content/posts/6.824/lab/lab_1_mapreduce/6.824/src/porcupine/checker.go:29-55 | The verdict is right for all histories with given times and all orders the sort may leave, if and only if no return coincides with a call or some operation returns before it is called. |
| `CheckOperations.VerdictOnEvents` | content/posts/6.824/lab/lab_1_mapreduce/6.824/src/porcupine/checker.go:350-358 | An event history gets Ok only if its operations, timed by position, are linearizable, with a sound equality Illegal only if they are not, Unknown only if the timeout has struck. |
| `Visualization.CollectValues` | content/posts/6.824/lab/lab_1_mapreduce/6.824/src/porcupine/visualization.go:37-53 | Each operation's call and return values, client, interval and description; the input is missing from the description exactly when the return is listed before the call. |
| `Visualization.SortByLength` | content/posts/6.824/lab/lab_1_mapreduce/6.824/src/porcupine/visualization.go:58-61 | A permutation, longest first. |
| `Visualization.LargestStep` | content/posts/6.824/lab/lab_1_mapreduce/6.824/src/porcupine/visualization.go:73-76 | One step of the bookkeeping keeps: every id visited so far points at the longest partial linearization containing it. |
| `Visualization.Replay` | content/posts/6.824/lab/lab_1_mapreduce/6.824/src/porcupine/visualization.go:63-79 | Replaying a partial linearization never meets a rejected step, and each step shows the id and the state reached. |
| `Visualization.ComputePartition` | content/posts/6.824/lab/lab_1_mapreduce/6.824/src/porcupine/visualization.go:33-87 | For any valid partial linearizations the replay never panics, the steps are those of each of them, and the largest index is defined exactly for the ids that occur and points at a longest one containing the id. |
| `Visualization.ComputeVisualizationData` | content/posts/6.824/lab/lab_1_mapreduce/6.824/src/porcupine/visualization.go:33-87 | The same for all partitions. |
| `VerboseCheck.VisualizeReport` | content/posts/6.824/lab/lab_1_mapreduce/6.824/src/porcupine/visualization.go:33-87 | What the driver reports, under every interleaving and after kills, is replayed without a panic; if the timeout does not strike, and with a sound equality, the partial linearization shown for an operation is a longest of all that contain it. |
| `VerboseCheck.MaximalShown` | content/posts/6.824/lab/lab_1_mapreduce/6.824/src/porcupine/visualization.go:73-76 | The largest index, computed from the report alone, points at a partial linearization at least as long as any that contains the operation. |
| `VerboseCheck.DescriptionFails` | content/posts/6.824/lab/lab_1_mapreduce/6.824/src/models/kv.go:55-70 | The description of a key/value operation panics if and only if its return is listed before its call. |
| `KvModel.Descriptions` | content/posts/6.824/lab/lab_1_mapreduce/6.824/src/models/kv.go:55-70 | The four forms of a description, by example, and that it panics exactly on a missing input. |
| `VerboseCheck.DescriptionMayFail` | content/posts/6.824/lab/lab_1_mapreduce/6.824/src/porcupine/checker.go:29-55 | The sort can list it so if and only if the operation does not return later than it is called. |
| `Persister.Clone` | content/posts/6.824/lab/lab_1_mapreduce/6.824/src/raft/persister.go:24-28 | A fresh buffer with the same bytes. |
| `Persister.Persister.constructor` | content/posts/6.824/lab/lab_1_mapreduce/6.824/src/raft/persister.go:20-22 | An empty persister. |
| `Persister.Persister.Copy` | content/posts/6.824/lab/lab_1_mapreduce/6.824/src/raft/persister.go:30-37 | A new persister with the same contents, sharing the buffers. |
| `Persister.Persister.SaveRaftState` | content/posts/6.824/lab/lab_1_mapreduce/6.824/src/raft/persister.go:39-43 | Replaces the state by a private copy, and leaves the snapshot alone. |
| `Persister.Persister.SaveStateAndSnapshot` | content/posts/6.824/lab/lab_1_mapreduce/6.824/src/raft/persister.go:59-64 | Replaces both by private copies. |
| `Persister.Persister.ReadRaftState` | content/posts/6.824/lab/lab_1_mapreduce/6.824/src/raft/persister.go:45-49 | A private copy of the state. |
| `Persister.Persister.ReadSnapshot` | content/posts/6.824/lab/lab_1_mapreduce/6.824/src/raft/persister.go:66-70 | A private copy of the snapshot. |
| `Persister.HandOver` | content/posts/6.824/lab/lab_1_mapreduce/6.824/src/kvraft/config.go:271-275 | Although a copy shares its buffers: over any series of saves on the copy and the original, each holds what was saved on it and nothing of the other. |
| `Persister.LastSaveCounts` | content/posts/6.824/lab/lab_1_mapreduce/6.824/src/raft/persister.go:30-43 | What the other side saves makes no difference. |
| `Labrpc.RequestsKept` | content/posts/6.824/lab/lab_1_mapreduce/6.824/src/labrpc/labrpc.go:218-309 | Every step of network, handlers and harness keeps each request's counters in agreement with where it stands. |
| `Labrpc.HarnessKept` | content/posts/6.824/lab/lab_1_mapreduce/6.824/src/kvraft/config.go:255-323 | Every step of shutdown and start keeps: a registered server saves to the current persister of its name, persisters serve one server each, and a replaced persister is copied. |
| `Labrpc.AnswerIsSaved` | content/posts/6.824/lab/lab_1_mapreduce/6.824/src/labrpc/labrpc.go:264-291 | A reply that passes the last liveness check comes from the server whose persister is still the one in use. |
| `Labrpc.MoveWrites` | content/posts/6.824/lab/lab_1_mapreduce/6.824/src/labrpc/labrpc.go:264-291 | Every move of a request keeps: an applied request is in its server's log, a persisted one in its persister, a positively answered one in the persister now in use. |
| `Labrpc.InvNext` | content/posts/6.824/lab/lab_1_mapreduce/6.824/src/labrpc/labrpc.go:218-309 | All of this is kept by every step. |
| `Labrpc.LogsKept` | content/posts/6.824/lab/lab_1_mapreduce/6.824/src/labrpc/labrpc.go:405-430 | No log and no persister ever holds a request twice, or one that was not executed. |
| `Labrpc.InvRun` | content/posts/6.824/lab/lab_1_mapreduce/6.824/src/labrpc/labrpc.go:218-309 | So it holds in every state of every run. |
| `Labrpc.AtMostOnce` | content/posts/6.824/lab/lab_1_mapreduce/6.824/src/labrpc/labrpc.go:84-123 | In every run a request is dispatched at most once, executed at most as often, answered at most once; Call returns true only if the handler ran exactly once and the bytes are its own reply. |
| `Labrpc.AnswerStays` | content/posts/6.824/lab/lab_1_mapreduce/6.824/src/labrpc/labrpc.go:84-123 | An answer given is never changed. |
| `Labrpc.AcknowledgedSurvives` | content/posts/6.824/lab/lab_1_mapreduce/6.824/src/kvraft/config.go:255-284 | Over every interleaving and any number of restarts, a request whose Call returned true is in the persister its server has at every later time, and in the log of whatever instance is registered under the name. |
| `RpcAnswers.FailureHasCause` | content/posts/6.824/lab/lab_1_mapreduce/6.824/src/labrpc/labrpc.go:218-309 | A Call returns false only for a cause in the run: it was refused at teardown; or when its end was read the network was unreliable or the end was disabled, unconnected or led to no server; or later the end was found disabled or the server gone or replaced. |
| `RpcAnswers.SuccessWasServed` | content/posts/6.824/lab/lab_1_mapreduce/6.824/src/labrpc/labrpc.go:264-291 | A Call returns true only if its end led to a server when it was read, and the end was enabled and the name stood for that same server when the reply was in. |
| `RpcAnswers.CanAnswer` | content/posts/6.824/lab/lab_1_mapreduce/6.824/src/labrpc/labrpc.go:218-291 | From every reachable state, an accepted request on a reliable network and an end that leads to a server can be answered with any reply, by its own moves alone. |
| `RpcAnswers.CanLoseRequest` | content/posts/6.824/lab/lab_1_mapreduce/6.824/src/labrpc/labrpc.go:228-232 | On an unreliable network it can fail without being executed, |
| `RpcAnswers.CanLoseReply` | content/posts/6.824/lab/lab_1_mapreduce/6.824/src/labrpc/labrpc.go:275-277 | or after being executed once. |
| `RpcAnswers.Restarts` | content/posts/6.824/lab/lab_1_mapreduce/6.824/src/kvraft/config.go:255-323 | From every reachable state the harness can shut any server down and register a new instance of it. |
| `RpcAnswers.CallCanSucceed` | content/posts/6.824/lab/lab_1_mapreduce/6.824/src/kvraft/config.go:255-323 | From every reachable state some continuation makes a new Call to any server over any end return true with any reply, and its request is then saved. |
| `BeautifulNumber.IsBeautiful` | content/posts/interview/imooc/imooc_Google讲Java/x1l50e/src/interview/google/BeautifulNumber.java:30-38 | True if and only if the number is written with ones only in the radix. |
| `BeautifulNumber.Beautiful` | content/posts/interview/imooc/imooc_Google讲Java/x1l50e/src/interview/google/BeautifulNumber.java:20-28 | The scan returns the specification: the least radix, or an exception. |
| `BeautifulNumber.LeastCharacterised` | content/posts/interview/imooc/imooc_Google讲Java/x1l50e/src/interview/google/BeautifulNumber.java:20-28 | The specification is the least radix from 2 on in which the number is all ones; it exists for every number from 3 on. |
| `BeautifulNumber.Convert` | content/posts/interview/imooc/imooc_Google讲Java/x1l50e/src/interview/google/BeautifulNumberLarge.java:57-74 | The number with `bits` ones in a radix, or Long.MAX_VALUE if that is larger, without overflow on the way. |
| `BeautifulNumber.GetRadix` | content/posts/interview/imooc/imooc_Google讲Java/x1l50e/src/interview/google/BeautifulNumberLarge.java:37-52 | The binary search finds a radix whose saturated value is the number, or shows that there is none. |
| `BeautifulNumber.MoreDigitsSmallerRadix` | content/posts/interview/imooc/imooc_Google讲Java/x1l50e/src/interview/google/BeautifulNumberLarge.java:20-29 | Of two radices writing one number as ones, the one with more digits is smaller. |
| `BeautifulNumber.MostDigitsIsLeast` | content/posts/interview/imooc/imooc_Google讲Java/x1l50e/src/interview/google/BeautifulNumberLarge.java:20-29 | Below Long.MAX_VALUE, the radix found with the most digits is the least radix. |
| `BeautifulNumber.BeautifulLarge` | content/posts/interview/imooc/imooc_Google讲Java/x1l50e/src/interview/google/BeautifulNumberLarge.java:20-29 | The fast search agrees with the scan, errors included, if and only if the number is not Long.MAX_VALUE; there it returns 2^62. |
| `BeautifulNumber.LargestIsSpecial` | content/posts/interview/imooc/imooc_Google讲Java/x1l50e/src/interview/google/BeautifulNumber.java:20-28 | For Long.MAX_VALUE the least radix is 2. |
| `Labgob.Checker.constructor` | content/posts/6.824/lab/lab_1_mapreduce/6.824/src/labgob/labgob.go:18-20 | At first nothing is checked and nothing counted, which meets the invariant. |
| `Labgob.Checker.CheckType` | content/posts/6.824/lab/lab_1_mapreduce/6.824/src/labgob/labgob.go:72-113 | On any finite type graph, cycles included, the walk ends; checked grows by types reachable from the argument, the argument among them; references of checked types stay checked but for those still being walked; the error count grows by the lower-case fields of the newly checked structs, each type once. |
| `Labgob.Checker.CheckFields` | content/posts/6.824/lab/lab_1_mapreduce/6.824/src/labgob/labgob.go:88-102 | The loop over the fields checks every field type and counts every lower-case field once. |
| `Labgob.Checker.CheckField` | content/posts/6.824/lab/lab_1_mapreduce/6.824/src/labgob/labgob.go:90-100 | One turn of that loop: the count goes up by one exactly for a lower-case field, whose type is then checked. |
| `Labgob.Checker.VisitSuccessor` | content/posts/6.824/lab/lab_1_mapreduce/6.824/src/labgob/labgob.go:100-108 | Following one reference keeps the bookkeeping of the type it comes from: what is newly checked is reachable from that type. |
| `Labgob.Checker.CheckValue` | content/posts/6.824/lab/lab_1_mapreduce/6.824/src/labgob/labgob.go:68-70 | After a top-level call, checked is exactly what it was plus everything reachable from the argument; with each struct it holds the types of all fields, with each slice, array or pointer the element type, with each map the element and the key type; and the error count is the number of pairs of a checked struct and a field whose name does not start with an upper-case letter. |
| `Labgob.ComplaintsCount` | content/posts/6.824/lab/lab_1_mapreduce/6.824/src/labgob/labgob.go:88-102 | What the walk counts over a set of types is the number of pairs of a struct in it and one of its lower-case fields. |
| `Trees.TreeNode.constructor` | content/posts/interview/imooc/imooc_Google讲Java/x1l50e/src/interview/tree/TreeNode.java:9-14 | A node with no children and no parent. |
| `Trees.TreeNode.SetLeft` | content/posts/interview/imooc/imooc_Google讲Java/x1l50e/src/interview/tree/TreeNode.java:24-29 | Links child and parent both ways and nothing else. |
| `Trees.TreeNode.SetRight` | content/posts/interview/imooc/imooc_Google讲Java/x1l50e/src/interview/tree/TreeNode.java:35-40 | Links child and parent both ways and nothing else. |
| `Trees.First` | content/posts/interview/imooc/imooc_Google讲Java/x1l50e/src/interview/tree/InOrder.java:24-34 | The first node in in-order, or null for the empty tree. |
| `Trees.Next` | content/posts/interview/imooc/imooc_Google讲Java/x1l50e/src/interview/tree/InOrder.java:5-22 | The node after this one in the in-order of the whole tree, or null at the end. |
| `Trees.Traverse` | content/posts/interview/imooc/imooc_Google讲Java/x1l50e/src/interview/tree/InOrder.java:36-43 | Iterating first and next outputs the values of the recursive in-order and stops. |
| `Trees.InOrderOnce` | content/posts/interview/imooc/imooc_Google讲Java/x1l50e/src/interview/tree/TreeTraversal.java:14-21 | The in-order visits every node of the tree exactly once. |
| `Trees.PlugInOrder` | content/posts/interview/imooc/imooc_Google讲Java/x1l50e/src/interview/tree/TreeTraversal.java:14-21 | The in-order of a tree is what comes before a subtree, the subtree, and what comes after it. |
| `Trees.CanClimb` | content/posts/interview/imooc/imooc_Google讲Java/x1l50e/src/interview/tree/InOrder.java:11-19 | In a parent-consistent tree the parent links lead from any node along its context to the root. |
| `Trees.RebuildRoundTrip` | content/posts/interview/imooc/imooc_Google讲Java/x1l50e/src/interview/tree/TreeCreator.java:15-34 | Every tree with distinct values is rebuilt from its pre-order and in-order. |
| `Trees.PostOrderOfRebuilt` | content/posts/interview/imooc/imooc_Google讲Java/x1l50e/src/interview/tree/TreeTraversal.java:32-48 | The post-order computed from the two strings is that of the rebuilt tree, and it throws exactly when rebuilding throws, for all strings. |
| `TreeLaws.PostIsMirroredPre` | content/posts/interview/imooc/imooc_Google讲Java/x1l50e/src/interview/tree/TreeTraversal.java:23-30 | Post-order is the pre-order of the mirror image read backwards. |
| `TreeLaws.InIsMirrored` | content/posts/interview/imooc/imooc_Google讲Java/x1l50e/src/interview/tree/TreeTraversal.java:14-21 | In-order is the in-order of the mirror image read backwards. |
| `TreeLaws.PostOrderOfStrings` | content/posts/interview/imooc/imooc_Google讲Java/x1l50e/src/interview/tree/TreeTraversal.java:32-48 | For every tree with distinct values, the post-order computed from its two strings is its mirrored pre-order read backwards. |
| `TreeLaws.RebuildExactly` | content/posts/interview/imooc/imooc_Google讲Java/x1l50e/src/interview/tree/TreeCreator.java:15-34 | For all strings: rebuilding gives a tree if and only if its pre-order is the first string and the second has room for it, each root found where it occurs first and behind as many characters as its left subtree has nodes; so it throws exactly when there is no such tree. |
| `TreeLaws.InOrderValues` | content/posts/interview/imooc/imooc_Google讲Java/x1l50e/src/interview/tree/InOrder.java:36-43 | The nodes in in-order have the values of the in-order of the tree they form. |
| `TreeLaws.SampleOrders` | content/posts/interview/imooc/imooc_Google讲Java/x1l50e/src/interview/tree/TreeTraversal.java:50-70 | The three traversals of the program's sample tree, and what its two strings give. |
| `Trees.CreateTree` | content/posts/interview/imooc/imooc_Google讲Java/x1l50e/src/interview/tree/TreeCreator.java:15-34 | Builds fresh nodes with consistent parent links in the shape of the rebuilt tree, or throws exactly when a substring is out of range. |
| `Trees.CreateNode` | content/posts/interview/imooc/imooc_Google讲Java/x1l50e/src/interview/tree/TreeCreator.java:20-33 | The same for one node and its two subtrees. |

## Left out

- Library sorts are modelled as insertion sorts specified as sorted permutations, not by their own algorithm.
- Event histories of `KvModel`: it has no PartitionEvent, so all keys would share one register; `VerdictOnEvents` is about models of a single object.
- CheckSingle.CheckSingle: entry lists with an id that lacks a call or a return or has several are outside its contract, where the program can index its bitset and its slots out of range; no history and no paired events produce them.
- CheckParallel.VerdictSound: says nothing about Illegal for a model whose `Equal` is not an equality that `Step` respects, which the model has to supply; its Ok and its report are covered.
- CheckOperations.VerdictOnStore: after a timeout, Unknown says nothing about the history; with ties, a linearizable history may get Illegal.
- Labrpc: byte and message counters, delays and their lengths, the encoding of arguments, reflection on handler names, and `Kill` of old servers.
- Persister: the mutex and the two size queries.
- `checkDefault` and the encoder and decoder around `checkType`; its callers are sequential, so its mutex is not modelled.
- The HTML, JSON and file output of the visualization; descriptions of operations and states are parameters.
- The `printf` output of the tree exercises is a returned sequence; pre-order and post-order recursion appear as functions only.
- The raft, kvraft, shardctrler, shardkv and mr skeletons have no bodies to model.
- MapReduce applications, command lines and the remaining test harness.
- The other algorithm exercises and the thread, JVM and design-pattern demonstrations, which would only add easy members.
