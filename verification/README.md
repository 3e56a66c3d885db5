# gpiod: a verified model

`gpiod` is a daemon that watches GPIO pins, sends every change to its TCP clients and launches hooks,
which are described in hook tabs. This project models five of its parts and proves what they are for.
`dafny verify dfyconfig.toml` checks it.

| file | models |
|---|---|
| `HashTypes`, `HashModel`, `HashLinks`, `HashExpand`, `HashOrder`, `HashSort`, `HashTable`, `HashRuns`, `HashPolicy` | the hash index behind `pid_list` and `stored_chips`: a value model with its invariant, the pointer structure that refines it operation by operation, whole runs of operations, and when it grows or stops growing |
| `Jenkins` | the default hash function of the index |
| `ListHead`, `PinLists` | intrusive circular lists, and what the event loop and the pin code do with them |
| `Hooks`, `HookLife`, `HookLaunches`, `HookDispatch` | hooks, their children and the kernel as a state machine, how often hooks are started, and the code that moves it |
| `HookTab`, `HookTabMods`, `HookTabFacts`, `HookBoot` | the hook-tab parser, what its modifier loop makes of any text, its properties, and the way from a tab to the dispatcher and to launches |
| `EdgeStream`, `Packets` | from pin samples to events, and from events to bytes at the clients |
| `Options`, `Seqs`, `BitOps`, `FlagBits` | optional values, sequences, bit operations on numbers, and flag words as numbers |

How the parts are stated:

- The index is a head pointer, items with two pairs of links, a table and an array of buckets, all
  updated in place. `HashTable.HashIndex` ties that structure to a value (`HashModel.Index`) and each
  method to a function on values; the load bounds and the refinement of a finite map are proved about
  the values, for every run. Its validity is the integrity check the header carries for debugging,
  plus the load policy. Keys must be new when added and items present when deleted, as the header asks;
  that `pid_list` meets this is proved in `HookLife` and used in `HookDispatch`.
- The comparator of a sort or an in-order add is any function; where a total preorder is needed the
  lemma says so. The hash function of a table is any function.
- Hooks run against a kernel that is only assumed to give a new child a positive pid no unreaped child
  has, and to let only live children exit. Signals may be lost, merged, late, repeated, or name any
  process. A launch counts as successful when the fork does.
- In the parser a line is the text before its NUL. `Unsafe` stands for what C leaves undefined: reading
  past the NUL, or writing past the 128-byte buffer, where lengths first pass through 8 bits.

Where the code does something else than its names or comments suggest, the model follows the code:

- `tab_parse_mod` returns an index plus one, so ONESHOT in a tab sets RISE and NO_LOOP and no parsed
  hook is ever one-shot (`HookTabFacts.NeverOneShot`). The one-shot theorems are about the flag bit.
- Names, special arguments and labels match by prefix, so an empty modifier is EDGE_RISING, `$` is
  `$@`, and a label token names the first pin it is a prefix of. Blank lines therefore add a hook
  (`BlankLine`), and an unknown name before a comma counts as EDGE_RISING (`UnknownBeforeComma`).
- A last line without newline that ends in a modifier is read past its end (`CutShort`);
  `UnsafeExactly` says which lines are not safe, as long as token lengths fit 8 bits.
- The size of an argument vector is counted in 8 bits, so a hook with 256 or more stored arguments makes
  the loop that fills it write past its end (`HookDispatch.BuildArgv`).
- A SIGCHLD clears its hook whenever `waitpid` does not fail, which includes 0 for a child that merely
  stopped; NO_LOOP exclusion is proved for runs in which no SIGCHLD names a running child listed for the
  hook, is shown to fail without that (`StoppedChild`), and its exact condition is `ExclusionExactly`.
- A failed read counts as a change and is reported with the event another pin left behind
  (`StaleEvent`); `FaithfulExactly` says when the stream is right.
- A sysfs interrupt pin set to RISING or FALLING only is dispatched at every wakeup, changed or not, and
  with the event variable as another pin left it if its value is the old one (`OneEdge`); only pins that
  watch both edges are spared.
- `list_splice` leaves the old head stale, so the two lists of the event loop cannot be used after it;
  the loop is entered once.

## Model

| member | source | states |
|---|---|---|
| `HashRuns.RunFromEmpty` | `src/uthash.h:350-477` | every legal run of adds, in-order adds, finds, deletes and sorts from the empty index, expansions included, gives the order of a dictionary with an ordered list of items, its answer to every lookup, and no table exactly when the dictionary is empty |
| `HashRuns.LoadAfterRun` | `src/uthash.h:850-852` | in every table such a run reaches: bucket count is 2^log2, sum of expand_mult at most the bucket count, and while noexpand is 0 at most 20 items a bucket and every chain at most (strictly below, once expand_mult >= 1) 10*(expand_mult+1); after any expansion the ideal length is 1 to 10, so its division is defined |
| `HashRuns.InOrderRun` | `src/uthash.h:286-293` | an index filled by in-order adds with one comparator, a total preorder, is sorted by it at every moment, whatever is deleted or sorted again |
| `HashPolicy.GrowsExactly` | `src/uthash.h:840-859` | an operation makes the table grow exactly when it is an addition that fills a chain up to 10*(expand_mult+1) while noexpand is 0; then there are twice the buckets, the ideal length is the smallest that would hold all items, every expand_mult is 0 or satisfies expand_mult*ideal <= count < (expand_mult+1)*ideal, and the count of poor expansions and noexpand follow from twice the surplus against the item count; any other operation leaves all of this alone |
| `HashPolicy.StopsExactly` | `src/uthash.h:946-951` | over every run, noexpand is set exactly when the last two expansions of the present table each left more than half of the items beyond the ideal length |
| `HashPolicy.LoadUnlessPoor` | `src/uthash.h:946-951` | so as long as no two expansions in a row were like that, the bounds on items a bucket and on every chain hold without any condition on noexpand |
| `HashPolicy.FirstTable` | `src/uthash.h:212-242` | the first addition makes a table of 32 buckets in which no expansion has been judged |
| `HashRuns.RunRefines` | `src/uthash.h:350-477` | the same refinement from any state that represents a dictionary |
| `HashRuns.StepRefines` | `src/uthash.h:350-477` | one legal operation, a sort with any comparator included, keeps index and dictionary in step |
| `HashModel.FindAgrees` | `src/uthash.h:818-837` | searching only the bucket of the hash value finds what searching the whole application order would |
| `HashModel.AddKeepsInv` | `src/uthash.h:396-415` | adding a new key, with or without the expansion it triggers, keeps distinct keys, the partition into chains and all load bounds, wherever in the order the item goes |
| `HashModel.PushKeepsInv` | `src/uthash.h:840-859` | the push that reaches the threshold expands, and the bounds hold again afterwards |
| `HashModel.DeleteKeepsInv` | `src/uthash.h:450-477` | deletion keeps the invariant and takes exactly the item out of the order; deleting the last one frees the table |
| `HashModel.ChainSplits` | `src/uthash.h:923-941` | an expansion splits every old chain i between new chains i and i+b, losing nothing |
| `HashModel.RedistributePartitions` | `src/uthash.h:923-941` | an expansion preserves the item set: the new chains are disjoint, each holds exactly the items hashing to it |
| `HashModel.MultsTimesIdeal` | `src/uthash.h:929-931` | sum(expand_mult) * ideal is at most the number of items |
| `HashModel.LoadFactor` | `src/uthash.h:850-852` | while expansion is allowed the table holds fewer than 20 items a bucket, so one more still fits the bound |
| `HashModel.ExpandRestores` | `src/uthash.h:906-954` | an expansion re-establishes every load bound from the item count alone, however badly the items were spread |
| `BitOps.ShiftMaskIsCeiling` | `src/uthash.h:888-903` | the shift-and-mask formula is the ceiling of the quotient by a power of two |
| `BitOps.MaskIsModulo` | `src/uthash.h:430-433` | masking with a power of two less one is the remainder, for every number |
| `BitOps.ShiftIsDivision` | `src/uthash.h:920-920` | the right shift is the quotient by a power of two |
| `BitOps.ModuloDoubled` | `src/uthash.h:927-927` | the slot for twice the buckets is the old slot or lies one old table higher |
| `BitOps.XorBits` | `src/uthash.h:629-640` | bit k of an exclusive or tells whether bits k of the operands differ |
| `HashTypes.Table.constructor` | `src/uthash.h:212-242` | a new table has 32 zeroed buckets, zero counters, and its first item as tail |
| `HashLinks.AppendList` | `src/uthash.h:278-284` | threading behind the tail gives a doubly linked list of the old order and the new item, which becomes the tail |
| `HashLinks.UnlinkApp` | `src/uthash.h:461-471` | unlinking position k of the application list repairs both directions, the head and the tail |
| `HashLinks.PushChain` | `src/uthash.h:840-849` | the new item becomes the head of its bucket, both directions linked, count one higher, other buckets untouched |
| `HashLinks.UnlinkChain` | `src/uthash.h:862-875` | position k leaves its bucket chain, both directions and the bucket head repaired, count one lower |
| `HashLinks.FindInBucket` | `src/uthash.h:818-837` | walking a bucket chain returns the first item with the key, or null |
| `HashExpand.PushChainsRedistributes` | `src/uthash.h:923-941` | moving item by item and bucket by bucket gives the closed form: each chain filtered by new slot and reversed |
| `HashExpand.IdealIsCeiling` | `src/uthash.h:919-921` | the formula in the code is ceil(items / new bucket count) |
| `HashExpand.MoveItem` | `src/uthash.h:926-938` | one item goes to the head of its new bucket; count, expand_mult and nonideal_items are updated as the new chain length demands |
| `HashExpand.MoveChain` | `src/uthash.h:924-940` | a whole old chain is moved while its own links are being overwritten |
| `HashExpand.MoveAll` | `src/uthash.h:923-941` | after all buckets: the new chains are the redistribution, expand_mult is count/ideal above the ideal and else 0, nonideal_items the sum of the excesses |
| `HashExpand.Install` | `src/uthash.h:943-951` | bucket count and log grow together, the judgement of the expansion is stored; what it means over runs is HashPolicy |
| `HashExpand.ExpandBuckets` | `src/uthash.h:906-954` | the in-place expansion of the linked structure is exactly the expansion of the model, application order untouched |
| `HashTable.AddToTable` | `src/uthash.h:337-345` | counting, slot by mask, push and possible expansion on the linked structure equal the model push |
| `HashTable.AddLinked` | `src/uthash.h:350-381` | adding to an existing table, at the end or where a comparator puts it, keeps every pointer and counter of the invariant |
| `HashTable.NewTable` | `src/uthash.h:402-408` | the first add makes a table that represents the one-item order |
| `HashTable.RemoveItem` | `src/uthash.h:460-474` | deleting from a table with other items repairs order list, tail, chain and counters |
| `HashTable.FindIn` | `src/uthash.h:818-837` | the lookup on the linked structure answers as the model does |
| `HashTable.HashIndex.constructor` | `src/uthash.h:396-402` | a null head is the empty index |
| `HashTable.HashIndex.Find` | `src/uthash.h:156-172` | returns the first item with the key in application order, and null exactly when there is none |
| `HashTable.HashIndex.Add` | `src/uthash.h:396-415` | a new key is appended to the application order; the linked structure, including creation and expansion, stays valid |
| `HashTable.HashIndex.AddWith` | `src/uthash.h:350-381` | with a comparator the item lands before the first greater one, the linked structure stays valid |
| `HashTable.HashIndex.Sort` | `src/uthash.h:961-1043` | the application order becomes its merge sort with prev, next, head and tail repaired; chains, and so lookups, are unchanged |
| `HashTable.HashIndex.Delete` | `src/uthash.h:450-477` | the item leaves order and chain; the last delete leaves a null head |
| `HashTable.HashIndex.Clear` | `src/gpiod-chip.c:103-112` | iterating with a saved next item while deleting the current one visits all and leaves no table |
| `HashTable.SortKeepsInv` | `src/uthash.h:961-1043` | sorting permutes the items and leaves chains and counters as they were |
| `HashOrder.MergeSortCorrect` | `src/uthash.h:961-1043` | for any total preorder the sort leaves a sorted permutation in which equivalent items keep their order |
| `HashOrder.InsertAllCorrect` | `src/uthash.h:286-293` | in-order adds into a sorted list give a sorted permutation, equivalent items in order of arrival |
| `HashOrder.StableSortUnique` | `src/uthash.h:961-1043` | two sorted lists with the same order inside every class of equivalent items are the same list |
| `HashOrder.InsertAllIsMergeSort` | `src/uthash.h:350-381` | building by in-order adds gives the same application order as appending and then sorting |
| `HashSort.MergeTwo` | `src/uthash.h:987-1028` | the merge loop over two runs of one linked list produces the stable merge behind what was already output |
| `HashSort.PassOnce` | `src/uthash.h:971-1033` | one pass relinks the whole list as the merged runs, and counts at most one merge exactly when the list fits two runs |
| `HashSort.Sort` | `src/uthash.h:961-1043` | the loop terminates with the list threaded in sorted order, head and tail right, no other field touched |
| `HashSort.LinkInOrder` | `src/uthash.h:363-378` | the item is linked at the place the comparator asks for, head and tail right |
| `Jenkins.HashJen` | `src/uthash.h:642-680` | the block loop, the fall-through switch and the last mix compute one word of the final state |
| `Jenkins.MixInPlace` | `src/uthash.h:629-640` | the nine lines of the mix compute the three rounds of the model |
| `Jenkins.MixBijective` | `src/uthash.h:629-640` | the mix has a two-sided inverse on its 96-bit state |
| `Jenkins.MixIs` | `src/uthash.h:629-640` | the mix written out in quotients and products modulo 2^32, with its nine shift counts |
| `Jenkins.Seeds` | `src/uthash.h:645-647` | the three words start at 2654435769, 2654435769 and 4276993775 |
| `Jenkins.WordIs` | `src/uthash.h:650-658` | four key bytes make a word, the least significant first |
| `Jenkins.TailIs` | `src/uthash.h:665-679` | what is added at the end: up to eleven bytes in their places, and the key length below the ninth |
| `Jenkins.AbsorbInjective` | `src/uthash.h:649-660` | different 12-byte blocks absorbed from one state leave different states |
| `Jenkins.ProcessKeepsApart` | `src/uthash.h:642-680` | whatever follows keeps different states apart and equal ones equal |
| `Jenkins.OneBlockTellsKeysApart` | `src/uthash.h:642-680` | equal-length keys that agree outside one block, or outside the tail, end in the same state exactly when they are equal |
| `ListHead.Add` | `src/list.h:50-53` | list_add refines putting the node in front |
| `ListHead.AddTail` | `src/list.h:62-65` | list_add_tail refines appending the node |
| `ListHead.Del` | `src/list.h:83-88` | list_del refines removal at the position of the node, whose own links become null |
| `ListHead.DelInit` | `src/list.h:93-97` | list_del_init refines removal and leaves the node a ring of its own |
| `ListHead.MoveTail` | `src/list.h:113-118` | list_move_tail takes the node out of one ring and appends it to a disjoint one, both consistent in both directions |
| `ListHead.IsEmpty` | `src/list.h:123-126` | true exactly for the empty sequence |
| `ListHead.Splice` | `src/list.h:143-147` | list_splice puts the nodes of one ring in front of another and does nothing for an empty one; the old head keeps stale links |
| `ListHead.SpliceInit` | `src/list.h:155-162` | the same, and the old head becomes an empty ring |
| `ListHead.RingUnique` | `src/list.h:18-27` | the links of a ring determine its sequence, so what the operations refine is well defined |
| `PinLists.Partition` | `src/gpiod-event-loop.c:97-111` | iterating safely while moving, the loop ends with gp_list empty and the two other lists the order-preserving filters by edge |
| `PinLists.SpliceBack` | `src/gpiod-event-loop.c:361-363` | the two splices put polled pins first, then interrupt pins, then what was left; the two heads are no longer lists |
| `PinLists.LoopLists` | `src/gpiod-event-loop.c:97-363` | across a whole run of the loop the pins are permuted, none lost or doubled: first those that are polled or of no known edge, then those set to rising, falling or both |
| `PinLists.SplitByEdge` | `src/gpiod-event-loop.c:99-109` | which pins end up in which of the two lists, by edge value |
| `PinLists.RemoveWhere` | `src/list.h:194-196` | safe iteration with deletion keeps exactly the nodes to be kept, in order, and clears the links of the others |
| `PinLists.InitGpioPins` | `src/gpiod-pin.c:57-74` | the pins whose init does not return -1 remain, in order |
| `PinLists.FreeAll` | `src/gpiod-hooktab.c:288-317` | argument and hook lists are empty afterwards and every node is unlinked |
| `HookLife.RunFromStart` | `src/gpiod-dispatch.c:166-182` | over every run, whatever SIGCHLDs are lost, merged or repeated: pid_list holds only unreaped children, a hook with spawned != -1 is listed under that pid, a NO_LOOP hook has exactly that entry and none when spawned is -1, and no launch meets a pid that is already listed |
| `HookLife.RunKeepsInv` | `src/gpiod-dispatch.c:69-182` | the invariant behind it is kept by every run |
| `HookLife.StepKeepsInv` | `src/gpiod-dispatch.c:69-182` | and by every single step of daemon or kernel |
| `HookLife.OneEntry` | `src/gpiod-dispatch.c:152-158` | the pid_list entries of a NO_LOOP hook are none or exactly the one under `spawned` |
| `HookLife.ExitsLast` | `src/gpiod-dispatch.c:69-164` | over any run of visits of hooks with children exiting in between, the run is equivalent to all visits in their order and the exits then: it stays possible and ends in the same state |
| `HookLife.OneShotOnce` | `src/gpiod-dispatch.c:86-88` | a ONESHOT hook is started at most once in any run, and `fired` is 0 exactly while no launch succeeded, so failed launches do not use it up |
| `HookLife.NoLoopExclusion` | `src/gpiod-dispatch.c:83-84` | in every run without a SIGCHLD that names a running child listed for it, a NO_LOOP hook never has two running children, and the one it has is listed |
| `HookLife.ExclusionExactly` | `src/gpiod-event-loop.c:324-326` | from any reachable state, exclusion holds in all such continuations if and only if it holds now and either no running child of the hook has been forgotten or no event can start the hook again |
| `HookLife.SecondChild` | `src/gpiod-dispatch.c:79-101` | otherwise two steps suffice for a second running child |
| `HookLife.SignalForgets` | `src/gpiod-event-loop.c:324-326` | a signal makes a hook lose track of a running child exactly when it names one that is listed for that hook |
| `HookLife.SignalEffect` | `src/gpiod-dispatch.c:166-182` | all that a SIGCHLD does: a terminated child is reaped, the entry under its pid and nothing else leaves pid_list, the hook listed there and no other is no longer in progress |
| `HookLife.StoppedChild` | `src/gpiod-event-loop.c:324-326` | the run that shows it: a stopped child makes waitpid answer 0, and the next edge starts a second child beside it |
| `HookLife.WaitsForSignal` | `src/gpiod-dispatch.c:83-84` | without a SIGCHLD for its child a NO_LOOP hook is never started again |
| `HookDispatch.BuildArgv` | `src/gpiod-dispatch.c:104-135` | fills the vector: the path, then for each argument the pin label, RISE or FALL, the pin value that raised the event in digits, or the text itself; it stays inside the vector if and only if fewer than 256 arguments are stored, as the 8-bit size counter wraps |
| `HookDispatch.AttemptHands` | `src/gpiod-dispatch.c:83-147` | a visit hands over exactly one vector, with these slots, if the number of the flags is odd and the edge rising or half of it is odd and the edge falling, unless it has 4 and a child is in progress or 8 and the hook has fired; else none |
| `HookLaunches.WantsByNumber` | `src/gpiod-dispatch.c:83-101` | the guards by the number of the flags, for every flag word |
| `HookLaunches.VisitLaunches` | `src/gpiod-dispatch.c:79-158` | a visit starts the hook exactly when these guards let it and the fork succeeds, and otherwise changes nothing |
| `HookLaunches.EdgeLaunches` | `src/gpiod-dispatch.c:91-101` | over every run in which launches succeed, a hook whose number has neither 4 nor 8 is started once per rising visit if the number is odd and once per falling visit if half of it is |
| `HookLaunches.BothLaunches` | `src/gpiod-dispatch.c:91-101` | so a hook with the flags of EDGE_BOTH is started once per visit with either edge |
| `HookLaunches.LaunchBalance` | `src/gpiod-dispatch.c:91-101` | from samples to launches: rising launches minus falling launches is final minus initial value |
| `HookDispatch.Guards` | `src/gpiod-dispatch.c:83-101` | the nested checks with their `continue`s decide as the three conditions do; what these are in numbers is HookLaunches.WantsByNumber |
| `HookDispatch.Dispatcher.constructor` | `src/gpiod-dispatch.c:28-28` | an empty pid_list and freshly loaded hooks start the state machine |
| `HookDispatch.Dispatcher.Start` | `src/gpiod-dispatch.c:152-158` | after a fork the fields and the hash index move as the launch step, and the new key is one the index does not hold |
| `HookDispatch.Dispatcher.VisitHook` | `src/gpiod-dispatch.c:79-160` | one pass of the loop is one step of the state machine, and hands the right argument vector to exec exactly when the hook wants the event; it is unsafe exactly when such a hook has 256 or more arguments |
| `HookDispatch.Dispatcher.DispatchHooks` | `src/gpiod-dispatch.c:69-164` | a whole dispatch is the sequence of those steps in list order, and hands over the argument vectors of exactly the hooks that want the event when their turn comes; it is unsafe exactly when it comes to a hook whose arguments overrun the vector |
| `HookDispatch.Dispatcher.ClearSpawned` | `src/gpiod-dispatch.c:166-182` | removes the entry and resets its hook, or returns -1 exactly when the pid is not listed |
| `HookDispatch.Dispatcher.OnSigchld` | `src/gpiod-event-loop.c:322-327` | anything but -1 from waitpid clears the hook, as the signal step says |
| `HookDispatch.Dispatcher.KernelExit` | `src/gpiod-event-loop.c:322-327` | a child that terminates is a zombie still on pid_list until its signal is handled |
| `HookBoot.Boot` | `src/gpiod-hooktab.c:244-286` | if every line of the tabs is safe, loading them leaves every pin with exactly the hooks of its lines and the dispatcher in a start state over all these hooks |
| `HookBoot.LineToLaunches` | `src/gpiod-hooktab.c:83-242` | from a printed line to launches: without NO_LOOP its hook is started once per rising visit if EDGE_RISING or EDGE_BOTH stands on the line, and once per falling visit if EDGE_FALLING or EDGE_BOTH does |
| `HookTab.EatSpace` | `src/gpiod-hooktab.c:53-67` | stops at the first character that is neither blank nor tab |
| `HookTab.NextSpace` | `src/gpiod-hooktab.c:69-81` | stops at the first blank, tab, line feed, carriage return or the NUL |
| `HookTab.TabParseMod` | `src/gpiod-hooktab.c:31-41` | returns the code of the first name the word is a prefix of |
| `HookTabMods.CodeBySpelling` | `src/gpiod-hooktab.c:31-41` | for every word: 1 if it is a prefix of EDGE_RISING, else 2 of EDGE_FALLING, else 3 of EDGE_BOTH, else 4 of NO_LOOP, else 5 of ONESHOT, else unknown |
| `HookTab.TabParseArgs` | `src/gpiod-hooktab.c:43-51` | returns the first special argument the word is a prefix of |
| `HookTab.FindPin` | `src/gpiod-pin.c:121-136` | returns the first pin whose label starts with the word |
| `HookTab.PassAdvances` | `src/gpiod-hooktab.c:127-163` | every pass of the modifier loop moves the cursor forward, the `continue` over an unknown name included |
| `HookTab.ModifierPass` | `src/gpiod-hooktab.c:128-162` | one pass from cursor to cursor computes the pass of the model, including when it leaves the line or the buffer |
| `HookTab.Modifiers` | `src/gpiod-hooktab.c:127-163` | the loop terminates with flags and cursor of the model |
| `HookTab.Arguments` | `src/gpiod-hooktab.c:193-227` | the argument loop terminates with the stored list of the model |
| `HookTab.ReadLine` | `src/gpiod-hooktab.c:101-227` | one line is read as the model says |
| `HookTab.LoadLine` | `src/gpiod-hooktab.c:101-231` | at most one hook, not fired and not spawned, is appended to the pin the label names; other pins keep theirs |
| `HookTab.LoadTab` | `src/gpiod-hooktab.c:101-231` | a tab adds to every pin the hooks of its lines in file order, all of them new objects that have not fired and have no child, and is safe exactly when every line is |
| `HookTabMods.Split` | `src/gpiod-hooktab.c:125-163` | every text whose runs of non-blanks stay under 256 characters is a list of modifiers, each with its blanks, word and comma, and a rest |
| `HookTabMods.ModsPrinted` | `src/gpiod-hooktab.c:125-163` | on every such list the loop fails if a word does not fit the buffer; else it gathers the OR of the codes and ends behind an unknown last word, or one character behind a known one, or past the end of the text if there is none |
| `HookTabMods.LoopLeaves` | `src/gpiod-hooktab.c:162-162` | the loop runs past the end of a text exactly when the text is a modifier list to its very end and the last word is known |
| `HookTabMods.UnknownBeforeComma` | `src/gpiod-hooktab.c:145-149` | an unknown word before a comma counts as EDGE_RISING |
| `HookTabMods.FlagsMean` | `src/gpiod-hooktab.h:13-21` | for any list of words, by their spelling: which of the bits 1, 2 and 4 are set, and that no other is |
| `HookTabMods.NamedFlags` | `src/gpiod-hooktab.h:13-21` | the number of a list of the first four names: 1 if EDGE_RISING or EDGE_BOTH occurs, 2 if EDGE_FALLING or EDGE_BOTH does, 4 if NO_LOOP does, added up |
| `HookTabFacts.RoundTrip` | `src/gpiod-hooktab.c:83-242` | a printed line, blanks around commas anywhere, comes back as the pin, the OR of its codes, the path and the same arguments with one null entry behind them |
| `HookTabFacts.NamesBack` | `src/gpiod-hooktab.c:83-242` | the flags read back from a printed line are the number of the names on it |
| `HookTabFacts.TabBack` | `src/gpiod-hooktab.c:101-231` | a printed tab comes back: every pin gets exactly the hooks that its lines describe, in their order |
| `HookTabFacts.UnsafeExactly` | `src/gpiod-hooktab.c:101-231` | a line with runs of non-blanks under 256 characters is unsafe if and only if its label does not fit the buffer, or names a pin while behind it a modifier does not fit, nothing follows a last known modifier, or a token of path and arguments, up to the line end, does not fit |
| `HookTabFacts.UnsafeShort` | `src/gpiod-hooktab.c:101-231` | a line whose tokens all fit is unsafe if and only if its label names a pin and the line behind the label is a modifier list to its very end |
| `HookTabFacts.LineSafe` | `src/gpiod-hooktab.c:101-231` | so on a newline-terminated line no cursor passes the NUL and no copy overruns the buffer |
| `HookTabFacts.CutShort` | `src/gpiod-hooktab.c:162-162` | a concrete last line without newline on which the cursor passes the NUL |
| `HookTabFacts.NeverOneShot` | `src/gpiod-hooktab.c:37-37` | no line of any tab yields a hook with the ONESHOT flag; the name is stored as RISE and NO_LOOP |
| `HookTabFacts.BlankLine` | `src/gpiod-hooktab.c:111-123` | a blank line gives the first pin a rising hook with an empty path |
| `HookTabFacts.ArgvShape` | `src/gpiod-dispatch.c:104-135` | for a hook read from a line with short tokens and a non-empty path, argv ends in its only null pointer; with an empty path it has none |
| `EdgeStream.SampledPin.Changed` | `src/pins/gpiod-sysfs.c:161-188` | answers -1, 0 or 1 and changes value and event only for a new successful sample |
| `EdgeStream.Poll` | `src/gpiod-event-loop.c:293-301` | one polling pass over all pins, with the event variable they share, equals the model sweep |
| `EdgeStream.OnInterrupt` | `src/gpiod-event-loop.c:275-287` | one wakeup of an interrupt pin, sysfs or character device: value and event as sampled or as recorded, reported unless a pin that watches both edges did not change |
| `EdgeStream.BothEdgesExactly` | `src/gpiod-event-loop.c:277-280` | over any run of wakeups a sysfs pin that watches both edges is reported with exactly the changes of its readings if and only if no reading failed |
| `EdgeStream.OneEdge` | `src/gpiod-event-loop.c:277-280` | a sysfs pin that watches one edge is reported at every wakeup, so that with no failed reading the reports are its changes if and only if every reading is one |
| `EdgeStream.EveryRecord` | `src/pins/gpiod-uapi.c:126-167` | a character-device pin is reported once for every edge record of its run, with the value and event of the record |
| `EdgeStream.FailedWakeup` | `src/gpiod-event-loop.c:277-286` | a failed reading or a record of no known kind is reported with the old value and the event that happened to be there |
| `EdgeStream.SweptOne` | `src/gpiod-event-loop.c:293-301` | a pass reports a pin exactly when its sample is new or failed; a failed one with the old value and a stale event |
| `EdgeStream.StreamIsChanges` | `src/pins/gpiod-uapi.c:169-187` | a pin whose samples all succeed is reported with exactly its changes, each with its own event, whatever the other pins do |
| `EdgeStream.FaithfulExactly` | `src/gpiod-event-loop.c:295-300` | the reports are the changes of the successful samples if and only if no sample failed |
| `EdgeStream.StaleEvent` | `src/gpiod-event-loop.c:228-300` | a pin that cannot be read is reported with the edge of the pin before it |
| `EdgeStream.EdgesBalance` | `src/pins/gpiod-sysfs.c:172-183` | the changes of a 0/1 stream alternate, and rising minus falling edges is final minus initial value |
| `Packets.RawPack` | `src/dispatch/gpiod-dispatch-raw.c:8-17` | the 256-byte buffer holds the whole packet and its NUL, and in front of any text it reads back as seconds and nanoseconds modulo 2^32 and channel and value modulo 256 |
| `Packets.PacketText` | `src/dispatch/gpiod-dispatch-raw.c:5-8` | the text of every packet: STX, DI;, seconds, a point, at least six digits of nanoseconds, at least two of the channel, the value, each the plain decimal print of its number, CR LF |
| `Packets.PackFits` | `src/dispatch/gpiod-dispatch-raw.c:8-14` | a packet has at most 35 characters |
| `Packets.PacketBack` | `src/dispatch/gpiod-dispatch-raw.c:8-8` | a packet in front of any text reads back as its four numbers and leaves that text |
| `Packets.StreamBack` | `src/dispatch/gpiod-dispatch-raw.c:8-17` | any concatenation of packets reads back as the list it was made from |
| `Packets.StreamsDiffer` | `src/dispatch/gpiod-dispatch-raw.c:8-17` | different lists of samples have different bytes |
| `Packets.SendAll` | `src/gpiod-dispatch.c:42-54` | writes the packet to the clients in list order up to and including the first that does not take all of it; returns 0 exactly if there is none |
| `Packets.WrittenBytes` | `src/gpiod-dispatch.c:42-54` | client k gets the bytes its write accepts, and nothing if a write before it was not complete |
| `Packets.WhoIsConnected` | `src/gpiod-event-loop.c:238-268` | over every run exactly those are connected who joined and have not left since, and the list keeps the order of joining |
| `Packets.ClientStream` | `src/gpiod-dispatch.c:37-55` | over every run of joins, leaves and dispatches, a connected client was sent exactly the packets since it joined if and only if in every dispatch since then its write and those of the clients before it in the list were complete, and then its bytes decode to exactly those samples |
| `Packets.AllComplete` | `src/gpiod-dispatch.c:37-55` | if every write of the run is complete, every client has all packets since it joined |

## Left out

- The Bloom filter, the non-fatal out-of-memory paths, HASH_SELECT and the other hash functions of the header: not enabled in this build.
- Allocation failure, the ownership of copied strings, log messages, and what is freed rather than unlinked.
- 32-bit overflow of item and bucket counts in the index; the counters are unbounded numbers.
- Duplicate keys in the index: an expansion reverses chains, so which duplicate a lookup finds has no stable meaning.
- The key bytes of an item: keys are values compared by equality, and `hashv` is a function of the key. Nothing ties `Jenkins` to the index beyond that.
- epoll, sockets, the signal and timer descriptors, fork, exec and waitpid themselves: they appear as parameters or as steps of the kernel.
- That children are reaped at all: signals can merge and only one is read per wakeup, so only safety is stated.
- Configuration parsing, pin setup and cleanup, chip scanning, the daemon and server set-up.
- HookDispatch.Dispatcher.DispatchHooks: children exit before or after it, not between its steps, which by `HookLife.ExitsLast` ends in the same state; the run theorems of `HookLife` allow any interleaving. It walks the hooks of a pin as a sequence; that the circular list of hooks is one is the subject of `ListHead`.
- HookDispatch.BuildArgv: what a write past the vector does is not modelled; the run ends there.
- HookBoot.Boot: takes the tabs of the directory as one list of lines; the daemon has no children of its own at that time.
- HookTab.LoadTab: keeps hooks and arguments in sequences, as appended by `ListHead.AddTail`; lines are given without the NUL characters a file could contain.
- HookTabFacts.RoundTrip: asks that no run of non-blank characters in the modifier list reaches 256, since lengths wrap at 8 bits.
- HookTabFacts.UnsafeExactly: is about lines with runs of non-blanks under 256 characters; longer ones are modelled, wrap-around of their lengths included, but not characterised.
- EdgeStream.SampledPin.Changed: `char` is taken as signed, so that a failed read is negative; samples are numbers.
- Packets.RawPack: seconds and nanoseconds are taken modulo 2^32, as `%u` prints them; the meaning of the two fields as one decimal number is not modelled.
- Clients that disconnect are removed from the list by identity; the descriptors behind them are not modelled.
