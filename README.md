# Concurrency in Action examples — a single-threaded Dafny model

This project models the algorithmic and data-structure core of a C++
collection of concurrency examples. It covers:

- the thread- and `std::async`-based versions of `accumulate`, `for_each`,
  `partial_sum` and `find`;
- the sequential and parallel list quicksort;
- the hierarchical mutex that detects lock-order violations;
- the mutex-protected queue and its fine-grained linked-list variant;
- the linked list with one mutex per node;
- the bucketed lookup table;
- the message-passing ATM and bank state machines.

Every model runs on one thread. Locks, condition variables, `std::thread`,
`std::future` and `std::async` are not modelled:

- A worker that the source starts on another thread is run to completion in
  place, in block order.
- A blocking wait becomes a precondition: the state the waiter waits for
  already holds.
- The ATM's and the bank's message queues are sequences of messages that
  the run loops consume.

Under that schedule, each parallel algorithm is proved equal to its
sequential reference definition. For `find` this is stronger than what the
program promises with real threads: any matching position may come back
(see "## Left out"). Each container method is stated against the abstract contents
it keeps: a sequence for the queues and the list, a map for the lookup
table. The reference definitions are `Ranges.Sum`, `Ranges.PrefixSums`,
`Ranges.Apply`, `Ranges.FirstMatch`, `QuickSort.SequentialQuickSort`,
`ThreadsafeList.Keep`, `ThreadsafeList.FindFirst` and `LookupTable.MapOf`.
Lemmas prove properties of each of them.

Modules, one per source file:

- `Common`: `Option` and the unsigned integer types.
- `Operation`: the messages of `operation.h`.
- `Bank`, `Atm`: the two state machines.
- `Ranges`: the sequential standard algorithms.
- `Blocks`: the block decomposition shared by the `thread_*` algorithms.
- `ThreadAccumulate`, `AsyncAccumulate`, `ThreadForEach`, `AsyncForEach`,
  `ThreadPartialSum`, `ThreadFind`, `AsyncFind`: the parallel algorithms.
- `QuickSort`: the two list sorts.
- `HierarchicalMutex`: the mutex with a level.
- `ThreadsafeQueue`, `QueueLinkList`, `ThreadsafeList`, `LookupTable`: the
  containers.

## Model

| member | source | states |
|---|---|---|
| Operation.ConstructorsKeepArguments | bank_atm_state/operation.h:7-152 | each message constructor stores exactly the account, PIN, amount, digit and reply queue it is given |
| Bank.RunFrom | bank_atm_state/bank.h:20-68 | the run loop never takes more messages off the queue than it holds |
| Bank.VerifyPinReply | bank_atm_state/bank.h:27-38 | verify_pin replies pin_verified to the requester's queue exactly when the PIN is "1937" and pin_incorrect otherwise; the balance is unchanged |
| Bank.WithdrawReply | bank_atm_state/bank.h:39-51 | a withdrawal is approved exactly when the balance covers it; approval lowers the balance by exactly the amount and a denial keeps it |
| Bank.QueriesKeepBalance | bank_atm_state/bank.h:52-62 | get_balance reports the current balance; get_balance, withdrawal_processed and cancel_withdrawal leave the balance unchanged |
| Bank.RunBalanceBounded | bank_atm_state/bank.h:20-68 | over any run the balance never grows, and every balance reported lies between the final and the initial balance |
| Bank.RunStopsAtClose | bank_atm_state/bank.h:20-68 | the loop stops exactly at the first close_queue: it consumes everything up to and including that message and nothing after it, and it consumes the whole input when there is none |
| Bank.RunAppend | bank_atm_state/bank.h:20-68 | running over two inputs one after the other equals running over their concatenation, as long as the first holds no close_queue |
| Bank.BankMachine.constructor | bank_atm_state/bank.h:13-15 | a new bank holds a balance of 199, with empty queues |
| Bank.BankMachine.Send | bank_atm_state/bank.h:69-72 | a sent message joins the end of the bank's queue; nothing else changes |
| Bank.BankMachine.Done | bank_atm_state/bank.h:16-19 | done() queues a close_queue; nothing else changes |
| Bank.BankMachine.Dispatch | bank_atm_state/bank.h:27-62 | the handler for one message updates the balance and appends the replies exactly as `Bank.Handle` specifies |
| Bank.BankMachine.Run | bank_atm_state/bank.h:20-68 | the in-place run loop ends with the balance, replies and remaining queue that `Bank.RunFrom` gives for the initial balance and queue |
| Atm.CallState | bank_atm_state/atm.h:146-150 | the done state consumes no message, sends only eject_card and moves back to waiting for a card; any other state that runs a handler consumes at least one message |
| Atm.RunFrom | bank_atm_state/atm.h:165-178 | the run loop never takes more messages off the queue than it holds |
| Atm.CardInsertedStartsPinEntry | bank_atm_state/atm.h:132-144 | inserting a card records the account, clears the PIN, shows "enter PIN" and moves to PIN entry |
| Atm.DigitAppends | bank_atm_state/atm.h:106-116 | a digit appends one character to the PIN; the fourth digit sends verify_pin with the four-digit PIN and the ATM's queue to the bank and moves to verification; earlier digits send nothing |
| Atm.ClearLastRemovesOne | bank_atm_state/atm.h:117-124 | clear_last removes the last PIN character when there is one and otherwise changes nothing |
| Atm.CancelEndsSession | bank_atm_state/atm.h:17-130 | every state that waits for a user action handles cancel_pressed, which leads to the done state and changes no other field |
| Atm.BalanceReturnsToMenu | bank_atm_state/atm.h:42-56 | a balance reply is displayed and the machine returns to the action menu |
| Atm.DoneEjectsCard | bank_atm_state/atm.h:146-150 | the done state ejects the card and returns to waiting for a card without reading a message |
| Atm.CallStateKeepsInvariant | bank_atm_state/atm.h:103-130 | one state call keeps the PIN at no more than four digits (fewer than four while collecting) and sends only verify_pin requests with a four-digit PIN, addressed to the bank and naming the ATM's queue |
| Atm.HandleKeepsInvariant | bank_atm_state/atm.h:103-130 | every handler keeps the PIN invariant and sends only verify_pin requests with a four-digit PIN, addressed to the bank and naming the ATM's queue |
| Atm.RunKeepsInvariant | bank_atm_state/atm.h:103-130 | the PIN invariant and the well-formedness of every verify_pin request hold over a whole run |
| Atm.CallStateConsumesUpToClose | bank_atm_state/atm.h:165-178 | a waiting state discards messages it has no handler for, up to the first one it handles or a close_queue |
| Atm.RunStopsAtClose | bank_atm_state/atm.h:165-178 | the run loop stops exactly at the first close_queue: it consumes up to and including it and nothing after it, and it consumes the whole input when there is none |
| Atm.WithdrawalIssuesRequestedAmount | bank_atm_state/atm.h:17-80 | for any queue in which the action menu reacts first to withdraw_pressed(amount) at position k1 and withdrawal processing then reacts first to withdraw_ok, whatever either discards before: the run sends the withdrawal options, asks the bank for exactly `amount`, issues exactly `amount`, reports that amount processed and ejects the card, then goes on from waiting_for_card with the fields recording `amount` and the queue after the withdraw_ok |
| Atm.WithdrawPressedStep | bank_atm_state/atm.h:58-68 | the action menu discards everything before the first message it reacts to; when that is withdraw_pressed it records the amount, asks the bank to withdraw it for the account with the ATM's queue as reply address, moves to withdrawal processing and has taken exactly the messages up to it |
| Atm.WithdrawOkStep | bank_atm_state/atm.h:17-26 | withdrawal processing discards everything before the first message it reacts to; when that is withdraw_ok it issues the recorded amount, reports it processed to the bank, moves to the done state and has taken exactly the messages up to it |
| Atm.ApprovedWithdrawal | bank_atm_state/atm.h:17-26 | from withdrawal processing, an approval reached after any discarded messages issues the recorded amount, reports it processed and ejects the card, and the run goes on from waiting_for_card with what follows the approval |
| Atm.DoneStep | bank_atm_state/atm.h:146-150 | on any queue, the done state ejects the card without reading and the run goes on from waiting_for_card with the same queue |
| Atm.StepRuns | bank_atm_state/atm.h:165-178 | a state call that ran a handler is followed by the run from its new fields on the queue it left |
| Atm.RunsThroughTrans | bank_atm_state/atm.h:165-178 | two consecutive stretches of the run loop compose: their outputs concatenate and the second starts where the first left the queue |
| Atm.EjectAndWait | bank_atm_state/atm.h:132-150 | with no message left, the done state ejects the card and the machine then shows "enter card" and waits, having read nothing |
| Atm.StepContinues | bank_atm_state/atm.h:165-178 | after a state call that ran a handler, the whole run is that call's output followed by the run from the new fields and queue; only the done state takes no message |
| Atm.StepStops | bank_atm_state/atm.h:165-178 | after a state call that caught a close_queue or found the queue empty, the run ends with that call's fields, output and consumption |
| Atm.Atm.constructor | bank_atm_state/atm.h:156-158 | a new ATM waits for a card, with empty account, PIN and queues |
| Atm.Atm.Send | bank_atm_state/atm.h:180-183 | a sent message joins the end of the ATM's queue; nothing else changes |
| Atm.Atm.Done | bank_atm_state/atm.h:160-163 | done() queues a close_queue; nothing else changes |
| Atm.Atm.WaitingForCardState | bank_atm_state/atm.h:132-144 | the waiting-for-card state makes exactly the state call `Atm.CallState` describes |
| Atm.Atm.GettingPinState | bank_atm_state/atm.h:103-130 | the PIN-entry state makes exactly the state call `Atm.CallState` describes |
| Atm.Atm.VerifyingPinState | bank_atm_state/atm.h:82-101 | the verification state makes exactly the state call `Atm.CallState` describes |
| Atm.Atm.WaitForActionState | bank_atm_state/atm.h:58-80 | the action-menu state makes exactly the state call `Atm.CallState` describes |
| Atm.Atm.ProcessWithdrawalState | bank_atm_state/atm.h:17-40 | the withdrawal state makes exactly the state call `Atm.CallState` describes |
| Atm.Atm.ProcessBalanceState | bank_atm_state/atm.h:42-56 | the balance state makes exactly the state call `Atm.CallState` describes |
| Atm.Atm.DoneProcessingState | bank_atm_state/atm.h:146-150 | the done state makes exactly the state call `Atm.CallState` describes |
| Atm.Atm.CallCurrentState | bank_atm_state/atm.h:165-178 | calling through the state pointer runs the current state's function |
| Atm.Atm.RunStep | bank_atm_state/atm.h:165-178 | one turn of the loop only takes messages from the front of the queue and only appends to the sent log; a turn that continues from a waiting state consumes at least one message |
| Atm.Atm.Turn | bank_atm_state/atm.h:165-178 | a turn keeps the loop's agreement with `Atm.RunFrom`; when the loop stops, the fields, the sent log and the queue are what `Atm.RunFrom` gives |
| Atm.Atm.Run | bank_atm_state/atm.h:165-178 | run starts in waiting-for-card and ends with the fields, messages sent and remaining queue that `Atm.RunFrom` gives |
| Ranges.SumAppend | async_algorithms/thread_accumulate.cpp:66-73 | the sum of a concatenation is the sum of the parts |
| Ranges.SumSplit | async_algorithms/async_accumulate.cpp:13-21 | splitting a range at any point splits its sum |
| Ranges.AccumulateRange | async_algorithms/thread_accumulate.cpp:29-36 | std::accumulate over a sub-range returns the initial value plus the range's sum |
| Ranges.ForEachRange | async_algorithms/thread_for_each.cpp:58 | std::for_each replaces every element of the range by `f` of itself, once, and changes nothing outside the range |
| Ranges.PrefixSumsAt | async_algorithms/thread_partial_sum.cpp:41-43 | position `i` of the prefix sums holds the sum of the first `i + 1` elements |
| Ranges.PrefixSumsAppend | async_algorithms/thread_partial_sum.cpp:44-53 | the prefix sums of a concatenation are those of the first part followed by those of the second part raised by the first part's sum |
| Ranges.PartialSumRange | async_algorithms/thread_partial_sum.cpp:41-43 | std::partial_sum in place replaces the range by its prefix sums and changes nothing outside it |
| Ranges.PartialSumDone | async_algorithms/thread_partial_sum.cpp:41-43 | an array that holds at each position of the range the sum of the range up to there, and the original values outside it, is the original with the range replaced by its prefix sums |
| Ranges.FirstMatch | async_algorithms/thread_find.cpp:38-47 | the result is the first position in the range holding the target, or the end of the range when there is none |
| Ranges.FirstMatchUnique | async_algorithms/thread_find.cpp:38-47 | the first match is the only position with those properties |
| Ranges.FirstMatchSplit | async_algorithms/async_find.cpp:29-32 | searching two adjacent ranges gives the left range's match, or the right range's when the left has none |
| Blocks.NumThreads | async_algorithms/thread_accumulate.cpp:47-50 | a non-empty range gets between 1 and length threads, never more than the hardware count (2 when unknown) and never more than length / 25 rounded up; the blocks themselves may be shorter than 25 elements |
| Blocks.BlockSizeBounds | async_algorithms/thread_accumulate.cpp:51 | a block holds at least one element and `num_threads` blocks fit in the range |
| Blocks.BlockStartIsProduct | async_algorithms/thread_accumulate.cpp:56-65 | after `i` advances the block start is `i * block_size` |
| Blocks.BlocksTile | async_algorithms/thread_accumulate.cpp:56-66 | every leading block ends inside the range and the final block is non-empty and at least a full block long |
| ThreadAccumulate.AccumulateBlock | async_algorithms/thread_accumulate.cpp:29-36 | a block's result is the block's sum |
| ThreadAccumulate.BlockSumAdded | async_algorithms/thread_accumulate.cpp:57-65 | appending the next block's sum to the earlier block sums gives the sum of the range up to that block's end |
| ThreadAccumulate.LaunchBlocks | async_algorithms/thread_accumulate.cpp:57-65 | the first loop produces one result per leading block, `num_threads - 1` of them, whose total is the sum of the range before the last block |
| ThreadAccumulate.CollectResults | async_algorithms/thread_accumulate.cpp:67-71 | adding the futures' results to `init` in order gives `init` plus their sum |
| ThreadAccumulate.Accumulate | async_algorithms/thread_accumulate.cpp:38-74 | the parallel accumulate returns `init` plus the sum of the whole range, for every hardware thread count, including the empty range |
| AsyncAccumulate.Accumulate | async_algorithms/async_accumulate.cpp:8-22 | ranges above 25 elements are split at len/2 with `init` on the left and zero on the right, shorter ones accumulated directly; the result is `init` plus the sum of the whole range |
| ThreadForEach.ApplyExtends | async_algorithms/thread_for_each.cpp:48-57 | applying `f` to one more block extends the applied prefix to the end of that block |
| ThreadForEach.ForEach | async_algorithms/thread_for_each.cpp:30-63 | every element of the array is replaced by `f` of itself, exactly once |
| AsyncForEach.ApplyHalves | async_algorithms/async_for_each.cpp:20-27 | applying `f` to the two halves in turn applies it to the whole range |
| AsyncForEach.ForEach | async_algorithms/async_for_each.cpp:10-29 | every element of the range is replaced by `f` of itself and nothing outside the range changes |
| ThreadPartialSum.ProcessChunk | async_algorithms/thread_partial_sum.cpp:35-71 | a chunk is replaced by its prefix sums raised by the previous chunk's end value (unchanged for the first chunk), and the value passed on is the chunk's new last element |
| ThreadPartialSum.LastPrefixSum | async_algorithms/thread_partial_sum.cpp:44-47 | the last prefix sum is the sum of the whole chunk |
| ThreadPartialSum.ShiftZero | async_algorithms/thread_partial_sum.cpp:54-57 | the first chunk, with nothing to carry in, keeps its own prefix sums |
| ThreadPartialSum.RaiseChunk | async_algorithms/thread_partial_sum.cpp:44-53 | adding the carry to the last element first and then to the others raises the whole chunk's prefix sums by it |
| ThreadPartialSum.LeadingChunks | async_algorithms/thread_partial_sum.cpp:90-98 | after the leading chunks the array holds the prefix sums up to where the final chunk starts and the original values from there on, and the last end value published is the running total at that point |
| ThreadPartialSum.ProcessNextChunk | async_algorithms/thread_partial_sum.cpp:90-101 | processing the chunk after the finished prefix, with the previous end value as the running total, extends the prefix sums to the chunk's end, and the end value it publishes is the running total there |
| ThreadPartialSum.LeadingStep | async_algorithms/thread_partial_sum.cpp:90-98 | one turn of the loop processes chunk `i` with chunk `i - 1`'s end value and extends the processed prefix and the published end values by one chunk |
| ThreadPartialSum.NextChunkDone | async_algorithms/thread_partial_sum.cpp:44-53 | a chunk replaced by its prefix sums raised by the running total continues the prefix sums of the whole input, and its new last element is the running total after the chunk |
| ThreadPartialSum.AllChunksDone | async_algorithms/thread_partial_sum.cpp:99-101 | once the last chunk is done, the array holds the prefix sums of the whole input |
| ThreadPartialSum.Unprocessed | async_algorithms/thread_partial_sum.cpp:44-53 | an array processed up to `start` holds the prefix sums before `start` and the original values from `start` on, so the next chunk is still unprocessed |
| ThreadPartialSum.ChunkDone | async_algorithms/thread_partial_sum.cpp:44-53 | a chunk raised by the sum so far continues the prefix sums of the whole input |
| ThreadPartialSum.PartialSum | async_algorithms/thread_partial_sum.cpp:30-102 | the parallel partial sum replaces the array by its prefix sums, for every hardware thread count |
| ThreadFind.FindElement | async_algorithms/thread_find.cpp:32-60 | a worker that starts after the done flag is set changes nothing; otherwise it reports the first match of its block and sets the flag exactly when it finds one |
| ThreadFind.Find | async_algorithms/thread_find.cpp:30-94 | with the workers run in block order, the result is the first position holding the target, or the end when there is none |
| AsyncFind.FindImpl | async_algorithms/async_find.cpp:9-39 | a call that starts after the done flag is set returns the end of its range; otherwise it returns the first match in the range and sets the flag exactly when there is one |
| AsyncFind.Find | async_algorithms/async_find.cpp:41-46 | with the left half run before the right, the result is the first position holding the target, or the end when there is none |
| QuickSort.Lower | frequently_used_functions/sort_sequential_and_parallel.cpp:18-22 | the lower part holds only elements smaller than the pivot |
| QuickSort.Higher | frequently_used_functions/sort_sequential_and_parallel.cpp:18-24 | the part left in `input` holds only elements at least as large as the pivot |
| QuickSort.PartitionKeepsElements | frequently_used_functions/sort_sequential_and_parallel.cpp:18-22 | the two parts together are a permutation of the input |
| QuickSort.SequentialQuickSort | frequently_used_functions/sort_sequential_and_parallel.cpp:7-29 | the result is a permutation of the input |
| QuickSort.SequentialQuickSortSorted | frequently_used_functions/sort_sequential_and_parallel.cpp:7-29 | the result is sorted in ascending order |
| QuickSort.SortedPermutationsEqual | frequently_used_functions/sort_sequential_and_parallel.cpp:18-20 | two sorted permutations of the same elements are equal |
| QuickSort.SequentialQuickSortOrderIndependent | frequently_used_functions/sort_sequential_and_parallel.cpp:18-20 | the sorted result depends only on the multiset of elements, so the order an unstable partition leaves does not matter |
| QuickSort.ParallelQuickSort | frequently_used_functions/sort_sequential_and_parallel.cpp:31-54 | the parallel sort returns the same list as the sequential one |
| HierarchicalMutex.ThreadContext.constructor | frequently_used_functions/level_lock_to_avoid_deadlock.cpp:61 | a thread starts at level ULONG_MAX |
| HierarchicalMutex.Mutex.constructor | frequently_used_functions/level_lock_to_avoid_deadlock.cpp:29-31 | a new mutex has the given level, a saved previous level of 0 and is not held |
| HierarchicalMutex.Mutex.CheckForHierarchyViolation | frequently_used_functions/level_lock_to_avoid_deadlock.cpp:14-20 | a logic_error is raised exactly when the thread's level is not strictly above the mutex's |
| HierarchicalMutex.Mutex.UpdateHierarchyValue | frequently_used_functions/level_lock_to_avoid_deadlock.cpp:22-26 | the thread's level is saved in the mutex and replaced by the mutex's level |
| HierarchicalMutex.Mutex.Lock | frequently_used_functions/level_lock_to_avoid_deadlock.cpp:33-38 | lock fails with nothing changed when the thread is not above the mutex; otherwise the mutex is held, the old thread level saved and the thread lowered to the mutex's level |
| HierarchicalMutex.Mutex.Unlock | frequently_used_functions/level_lock_to_avoid_deadlock.cpp:40-48 | unlock fails exactly when the thread is not at the mutex's level; otherwise the thread gets the saved level back and the mutex is free |
| HierarchicalMutex.Mutex.TryLock | frequently_used_functions/level_lock_to_avoid_deadlock.cpp:50-59 | try_lock raises the same violation as lock; otherwise it returns false with nothing changed when the mutex is held, and locks like lock when it is free |
| HierarchicalMutex.LockUnlockRestores | frequently_used_functions/level_lock_to_avoid_deadlock.cpp:33-48 | a successful lock followed by an unlock restores the thread's level and frees the mutex |
| HierarchicalMutex.Demo | frequently_used_functions/level_lock_to_avoid_deadlock.cpp:63-123 | locking 10000 then 5000 succeeds; holding 6000 and then locking 10000 raises the violation; afterwards the thread is back at ULONG_MAX |
| ThreadsafeQueue.Queue.constructor | frequently_used_functions/threadsafe_queue.cpp:18 | a new queue is empty |
| ThreadsafeQueue.Queue.Copy | frequently_used_functions/threadsafe_queue.cpp:20-24 | the copy holds the same elements in the same order |
| ThreadsafeQueue.Queue.Push | frequently_used_functions/threadsafe_queue.cpp:26-32 | push appends the value at the back |
| ThreadsafeQueue.Queue.WaitAndPop | frequently_used_functions/threadsafe_queue.cpp:34-49 | on a non-empty queue, wait_and_pop removes and returns the front element |
| ThreadsafeQueue.Queue.TryPopInto | frequently_used_functions/threadsafe_queue.cpp:51-61 | try_pop succeeds exactly when the queue is non-empty and then removes the front element into `value`; otherwise the queue and `value` are unchanged |
| ThreadsafeQueue.Queue.TryPop | frequently_used_functions/threadsafe_queue.cpp:63-73 | try_pop returns nothing exactly when the queue is empty, and otherwise removes and returns the front element |
| ThreadsafeQueue.Queue.Empty | frequently_used_functions/threadsafe_queue.cpp:75-79 | empty is true exactly when the queue holds no element |
| ThreadsafeQueue.DataPreparation | frequently_used_functions/threadsafe_queue.cpp:84-90 | the producer appends the numbers in order |
| ThreadsafeQueue.DataProcessing | frequently_used_functions/threadsafe_queue.cpp:92-101 | the consumer reports every queued element in order and leaves the queue empty |
| ThreadsafeQueue.Handover | frequently_used_functions/threadsafe_queue.cpp:84-101 | producing and then consuming through a fresh queue reports exactly the numbers produced, in order |
| QueueLinkList.Node.constructor | threadsafe_data_structures/threadsafe_queue_linklist.cpp:13-17 | a new node has no data and no successor |
| QueueLinkList.Queue.constructor | threadsafe_data_structures/threadsafe_queue_linklist.cpp:69 | a new queue has head and tail on one dummy node and is empty |
| QueueLinkList.Queue.GetTail | threadsafe_data_structures/threadsafe_queue_linklist.cpp:23-27 | get_tail returns the tail node |
| QueueLinkList.Queue.Push | threadsafe_data_structures/threadsafe_queue_linklist.cpp:75-86 | push appends the value at the back, keeps the head and the structure valid |
| QueueLinkList.Queue.PopHead | threadsafe_data_structures/threadsafe_queue_linklist.cpp:29-34 | on a non-empty queue pop_head advances the head to its successor and returns the old head, which carries the front element and whose `next` is left null, cut off from the queue |
| QueueLinkList.Queue.TryPopHead | threadsafe_data_structures/threadsafe_queue_linklist.cpp:56-66 | try_pop_head returns null exactly when the queue is empty, and otherwise the cut-off old head that carries the front element |
| QueueLinkList.Queue.TryPop | threadsafe_data_structures/threadsafe_queue_linklist.cpp:99-103 | try_pop returns nothing exactly when the queue is empty, and otherwise removes and returns the front element |
| QueueLinkList.Queue.TryPopInto | threadsafe_data_structures/threadsafe_queue_linklist.cpp:105-109 | try_pop succeeds exactly when the queue is non-empty and then removes the front element into `value`; otherwise the queue and `value` are unchanged |
| QueueLinkList.Queue.WaitAndPop | threadsafe_data_structures/threadsafe_queue_linklist.cpp:88-97 | on a non-empty queue, wait_and_pop removes and returns the front element |
| QueueLinkList.Queue.Empty | threadsafe_data_structures/threadsafe_queue_linklist.cpp:111-115 | empty is true exactly when the queue holds no element |
| QueueLinkList.DataPreparation | threadsafe_data_structures/threadsafe_queue_linklist.cpp:120-126 | the producer appends the numbers in order |
| QueueLinkList.DataProcessing | threadsafe_data_structures/threadsafe_queue_linklist.cpp:128-138 | the consumer reports every queued element in order and leaves the queue empty |
| QueueLinkList.Handover | threadsafe_data_structures/threadsafe_queue_linklist.cpp:120-138 | producing and then consuming through a fresh queue reports exactly the numbers produced, in order |
| ThreadsafeList.Node.Dummy | threadsafe_data_structures/threadsafe_list.cpp:14 | the head node carries no data and has no successor |
| ThreadsafeList.Node.constructor | threadsafe_data_structures/threadsafe_list.cpp:15 | a data node carries the value and has no successor |
| ThreadsafeList.KeepMeaning | threadsafe_data_structures/threadsafe_list.cpp:73-93 | what remove_if leaves contains no element matching the predicate, keeps every element that does not match and adds none |
| ThreadsafeList.KeepNothingRemoved | threadsafe_data_structures/threadsafe_list.cpp:73-93 | when no element matches, remove_if leaves the list unchanged |
| ThreadsafeList.KeepAllRemoved | threadsafe_data_structures/threadsafe_list.cpp:22-25 | when every element matches, remove_if empties the list |
| ThreadsafeList.KeepTwice | threadsafe_data_structures/threadsafe_list.cpp:73-93 | removing by `p` and then by `q` is removing by `p or q` |
| ThreadsafeList.FirstWhere | threadsafe_data_structures/threadsafe_list.cpp:54-71 | the result is the first position at or after `lo` whose element satisfies the predicate, or the length when there is none |
| ThreadsafeList.FindFirstMeaning | threadsafe_data_structures/threadsafe_list.cpp:54-71 | find_first_if finds nothing exactly when no element satisfies the predicate, and otherwise returns the first element that does |
| ThreadsafeList.List.constructor | threadsafe_data_structures/threadsafe_list.cpp:17-20 | a new list is empty |
| ThreadsafeList.List.PushFront | threadsafe_data_structures/threadsafe_list.cpp:31-37 | push_front puts the value in front of the existing elements |
| ThreadsafeList.List.ForEach | threadsafe_data_structures/threadsafe_list.cpp:39-52 | for_each applies `f` to every element in order and keeps the nodes |
| ThreadsafeList.List.FindFirstIf | threadsafe_data_structures/threadsafe_list.cpp:54-71 | the result is what `ThreadsafeList.FindFirst` gives for the contents |
| ThreadsafeList.List.RemoveIf | threadsafe_data_structures/threadsafe_list.cpp:73-93 | remove_if leaves exactly the non-matching elements, in their order |
| ThreadsafeList.RemoveStep | threadsafe_data_structures/threadsafe_list.cpp:78-92 | one pass of the remove_if loop either unlinks the next node (a match) or steps onto it, keeping the loop invariant |
| ThreadsafeList.RemoveLoop | threadsafe_data_structures/threadsafe_list.cpp:76-92 | once the loop ends, every element has been looked at and the kept nodes form a chain from the head holding exactly the non-matching elements |
| ThreadsafeList.Unlink | threadsafe_data_structures/threadsafe_list.cpp:81-86 | a matching next node is unlinked and `cur` stays, keeping the loop invariant |
| ThreadsafeList.Advance | threadsafe_data_structures/threadsafe_list.cpp:87-91 | a non-matching next node is kept and becomes `cur`, keeping the loop invariant |
| ThreadsafeList.RemovedAll | threadsafe_data_structures/threadsafe_list.cpp:78 | when the loop stops, the kept nodes are distinct list nodes forming a chain from the head, holding exactly the non-matching elements and ending without successor |
| ThreadsafeList.List.StartRemoval | threadsafe_data_structures/threadsafe_list.cpp:76-77 | before the loop nothing has been looked at and only the head is kept |
| ThreadsafeList.List.Clear | threadsafe_data_structures/threadsafe_list.cpp:22-25 | the destructor's remove_if with an always-true predicate empties the list |
| LookupTable.Find | threadsafe_data_structures/threadsafe_lookup_table.cpp:24-29 | the result is the first position of the key in the bucket, or the bucket's length when it is absent |
| LookupTable.FindUnique | threadsafe_data_structures/threadsafe_lookup_table.cpp:24-29 | only the first occurrence has those properties |
| LookupTable.UpdatedLookup | threadsafe_data_structures/threadsafe_lookup_table.cpp:39-49 | after add_or_update_mapping the key maps to the new value, every other key keeps its value, and keys stay unique |
| LookupTable.RemovedLookup | threadsafe_data_structures/threadsafe_lookup_table.cpp:51-59 | after remove_mapping the key is absent, every other key keeps its value, and keys stay unique |
| LookupTable.RemovedUnique | threadsafe_data_structures/threadsafe_lookup_table.cpp:51-59 | erasing a pair keeps the keys of a bucket unique |
| LookupTable.InsertAllAt | threadsafe_data_structures/threadsafe_lookup_table.cpp:105-112 | inserting a bucket's pairs into a map without overwriting keeps every value the map already had and adds the bucket's value for a key the map lacks |
| LookupTable.MapOfAt | threadsafe_data_structures/threadsafe_lookup_table.cpp:105-112 | a key found only in one bucket gets that bucket's value in the collected map |
| LookupTable.BucketIndex | threadsafe_data_structures/threadsafe_lookup_table.cpp:64-68 | the bucket index is within the bucket vector |
| LookupTable.MapOfPlaced | threadsafe_data_structures/threadsafe_lookup_table.cpp:83-86 | in a table whose pairs sit in their hash buckets, the key's value in the whole map is its value in its own bucket |
| LookupTable.MapOfUpdated | threadsafe_data_structures/threadsafe_lookup_table.cpp:88-91 | updating the key's bucket changes the table's map to the old map with the key set to the value, and keeps every pair in its bucket |
| LookupTable.MapOfRemoved | threadsafe_data_structures/threadsafe_lookup_table.cpp:93-96 | removing from the key's bucket changes the table's map to the old map without the key, and keeps every pair in its bucket |
| LookupTable.Bucket.constructor | threadsafe_data_structures/threadsafe_lookup_table.cpp:21 | a new bucket is empty |
| LookupTable.Bucket.FindEntryFor | threadsafe_data_structures/threadsafe_lookup_table.cpp:24-29 | the search loop returns the first position of the key, or the length when it is absent |
| LookupTable.Bucket.ValueFor | threadsafe_data_structures/threadsafe_lookup_table.cpp:32-37 | the result is the key's value in the bucket, or the default when it is absent |
| LookupTable.Bucket.AddOrUpdateMapping | threadsafe_data_structures/threadsafe_lookup_table.cpp:39-49 | the pair is overwritten in place when the key is present and appended otherwise |
| LookupTable.Bucket.RemoveMapping | threadsafe_data_structures/threadsafe_lookup_table.cpp:51-59 | the key's pair is erased when present and nothing changes otherwise |
| LookupTable.Table.constructor | threadsafe_data_structures/threadsafe_lookup_table.cpp:71-77 | the table has `nums` distinct empty buckets, 19 by default, and the given hasher |
| LookupTable.Table.GetBucket | threadsafe_data_structures/threadsafe_lookup_table.cpp:64-68 | the bucket returned is the one at the key's hash modulo the bucket count |
| LookupTable.Table.ValueFor | threadsafe_data_structures/threadsafe_lookup_table.cpp:83-86 | the result is the key's value in the table's map, or the default when it is absent |
| LookupTable.Table.AddOrUpdateMapping | threadsafe_data_structures/threadsafe_lookup_table.cpp:88-91 | the table's map becomes the old map with the key set to the value; only the key's bucket changes |
| LookupTable.Table.RemoveMapping | threadsafe_data_structures/threadsafe_lookup_table.cpp:93-96 | the table's map becomes the old map without the key; only the key's bucket changes |
| LookupTable.Table.GetMap | threadsafe_data_structures/threadsafe_lookup_table.cpp:98-114 | get_map returns exactly the map the table stands for |

## Left out

- Threads, `std::async`, futures, promises, atomics, mutexes and condition variables. Workers run to completion one after the other, in block order. The left half of an `async_find` split runs before the right half, and the right half is skipped once a match is found.
- ThreadFind.Find, AsyncFind.Find: the first-match result holds only for the modelled schedule. With real threads, `thread_find` returns the match of whichever worker sets `done_flag` first (async_algorithms/thread_find.cpp:38-44), and a worker on an earlier block stops scanning once the flag is set. In `async_find`, a left half stopped by `done` returns `mid_point`, so a match in the right half is returned even when the left half also holds one (async_algorithms/async_find.cpp:18, 32). The program guarantees only some matching position, or `last` when there is none.
- ThreadForEach.ForEach, AsyncForEach.ForEach, ThreadsafeList.List.ForEach: `f` is a pure function from an element's value to its new value. In the source `f` takes the element by reference and may have other effects. Its calls on different blocks or halves also run in no fixed order: `async_for_each` runs the right half on the caller while the left half runs asynchronously (async_algorithms/async_for_each.cpp:23-24). The model fixes one order, which matters only for an `f` with effects beyond its element.
- Blocking waits (`wait_and_pop`, and locking a mutex another thread holds) become preconditions that the awaited state already holds.
- Exceptions thrown by element operations, and the `set_exception` paths of `thread_find`, `async_find` and `thread_partial_sum`.
- `messaging.h` is not part of this model. Its dispatcher is assumed to:
  - hand each message to the first handler of its type;
  - discard messages that no handler takes;
  - end `run` when a close_queue message arrives.
  An exhausted input stands for a machine blocked in its wait.
- The ATM and the bank: the hardware interface thread, the display output and the exact text of messages are not modelled.
- LookupTable.Table.ValueFor: the source's `default_value` defaults to a value-initialised `Value()` (threadsafe_data_structures/threadsafe_lookup_table.cpp:83). Dafny has no such value for a generic type, so callers must pass the default explicitly.
- Atm.Atm.constructor: the source leaves the withdrawal amount uninitialised. The model starts it at 0, with empty account and PIN strings.
- Elements are mathematical integers: the algorithms work over `int` rather than a template `T`, and overflow of `T` in sums is not modelled. Unsigned overflow of `length + 24` in the thread-count formula is not modelled either. The bank balance is a 32-bit unsigned value that is only decremented after the `balance >= amount` check, so it cannot wrap.
- `std::partition` is unstable. `QuickSort.Lower` and `QuickSort.Higher` are one admissible stable outcome, and `QuickSort.SequentialQuickSortOrderIndependent` shows that any other order gives the same sorted result.
- `std::shared_ptr` sharing: queue and list elements are held by value. The copy constructor copies the element pointers, so the copy shares the elements with the original; only element values are modelled.
- `std::hash`: the hasher is a function parameter from keys to natural numbers.
- LookupTable.Table.constructor: the bucket count `nums` is an `int` in the source. The model takes a natural number, so a negative count is not modelled. Operations that pick a bucket require at least one bucket, since the source computes a modulo by the bucket count.
- LookupTable.Table.GetMap: the source locks each bucket's mutex and reads `buckets[i].data` through the owning pointer. It compiles only if never instantiated. The model follows what the body evidently computes: every pair inserted into a `std::map` without overwriting.
- The demo programs run producer and consumer concurrently: the consumer may find the queue empty before anything is pushed, and then it returns. `ThreadsafeQueue.Handover` and `QueueLinkList.Handover` model only the schedule where the producer finishes first.
- The lock-free, hazard-pointer, reference-counted and waiting stacks, the lock-free queue, and the other demonstrations of `frequently_used_functions` lie outside this core.
