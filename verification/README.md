# 2D relaxed data structures, modelled and proved in Dafny

The 2D framework splits one queue, stack, deque or counter over `width` sub-structures and lays a window of
`depth` rows over them; operations may only work inside the window.  Its promise is numeric: with the window kept
as the code keeps it, an operation overtakes at most k others.  This project models the framework's static and
elastic designs, its lock and its measuring instrument, and proves that promise and what it rests on, for any
width, depth, number of threads and length of run.

## Two levels

*Access level* (`StaticQueueSteps`, `LawSteps`, `Deque`, `HierLock`, and what is built on them): every shared read, CAS
and store is one step of a state machine, threads have program counters, and any thread may take the next step.
Descriptors of two words are read one word at a time, in either order.  The main results hold in every state of
every run.

*Operation level* (`Window2Dd`, `Queue2D`, `Counter2D`, `Stack2Dc`, `LawQueue`, `Runs`, `Measured`): classes with the
fields and loops of the source, one operation running at a time, by any thread, from any index its locals may
hold, with windows it may still remember from long ago and any random hops.  Rank bounds and the exactness of
"empty" are stated here, for single operations and in `Runs` for every schedule of them.  With operations interleaved,
the descriptor that the empty return hands back carries no window guard (include/2Dd-window.c:170-173), and a
sub-queue seen empty early in a pass may be refilled before the window moves.

`LateralStack` and `Recorder` work on linked lists: of immutable nodes rewritten with sharing, and of nodes changed
in place.

| file | what it models |
|---|---|
| Relaxation.dfy | what k-out-of-order means, the counting argument, parameters from a requested bound |
| Search.dfy, Descriptor.dfy, History.dfy, Schedule.dfy | the hops of a window search; descriptors; runs, and what they show |
| Window2Dd.dfy, Queue2D.dfy, Counter2D.dfy | static queue and counter |
| Stack2Dc.dfy | static stack with one window |
| LateralWindows.dfy, LawQueue.dfy | elastic Lateral-as-Window queue |
| Runs.dfy | schedules of any threads over the static queue, the elastic queue and the stack |
| StaticQueueSteps.dfy, LawSteps.dfy | the two queues access by access |
| StaticAnswers.dfy, StaticTorn.dfy, LawAnswers.dfy, DequeAnswers.dfy | what each call of the two queues and of the deque comes to, and when a dequeue may answer that there is nothing |
| LawFifo.dfy, LawScript.dfy, LawReturn.dfy | which widths keep the elastic queue's sub-queues FIFO, and runs for all others |
| LawHops.dfy | the hop counter of the elastic queue's get search |
| Deque.dfy | one anchor-based sub-deque access by access |
| Accounting.dfy, DequeProgress.dfy, QueueProgress.dfy, LawProgress.dfy | lock-freedom of the deque, the static queue and the elastic enqueue |
| HierLock.dfy, HierLockCrowd.dfy | the hierarchical ticket lock access by access, and how many threads it is good for |
| LateralStack.dfy | the lateral of the elastic stack, its rewrite and its reclamation |
| Recorder.dfy, Measured.dfy | the rank-error recorder, and the structures measured by it |

`dafny verify dfyconfig.toml` checks everything.

## Where the code and its documentation differ

- README.md:3 speaks of dequeuing "any of the top k items"; what holds is that at most k older items are overtaken,
  so the item is among the first k + 1, and `Runs.BoundReached` shows that the last of these can be the one.
- The comment at src/2Dc-stack/2Dc-stack.c:53-56 derives the stack's bound for shift = depth / 2.  The bound holds for
  every shift from 1 to the depth.  What is exact is `(depth + shift * ((depth - 1) / shift)) * (width - 1)`: no pop
  leaves more behind, and some pop leaves as many (`Runs.StackBoundReached`).  For an even depth and shift = depth / 2
  that is three quarters of what the stack is given.
- In k_mode 1 and 3, a width below 2 with a requested bound of 0 gives a window of depth 0, in which nothing can ever
  be enqueued (`StaticQueueSteps.DepthZeroBarren`).  `Relaxation.Parameters` states exactly when that happens.
- In the elastic queue, get_window's empty return hands back a descriptor whose count may be beyond the get window
  (src/2Dd-queue_elastic-law/2Dd-window_elastic.c:224-235), and dequeue goes on with it if something was enqueued since.
  If the sub-queue dropped out of a window and returned, the get count then falls behind the rows, and in a later window
  a dequeuer that skips its look at the tail (src/2Dd-queue_elastic-law/2Dd-queue_elastic.c:318-322) follows a NULL
  pointer.  It depends on nothing but the widths: `LawReturn.FifoExactly` shows that the sub-queues are FIFO, and no
  NULL is followed, over all runs if and only if no window before the last is narrower than one before it and one
  after it.  A queue whose width is never changed, or only ever raised, or only ever lowered, is safe.
- In the same search the hops are not reset when the get window is found to be another
  (src/2Dd-queue_elastic-law/2Dd-window_elastic.c:177-197).  In a narrower window the search then goes on until its
  16-bit counter has gone round, and in a wider one it may give up before it has seen every sub-queue (`LawHops`).
- The hierarchical lock needs at most NB_TICKETS_LOCAL + 1 threads on each socket, which nothing in src/htlock.c checks.
  With one more, two threads can be inside (`HierLockCrowd.MutexExactly`).
- In the static queue a dequeue whose descriptor was torn, its count read before and its node after another dequeue,
  may answer that there is nothing without having looked at the other sub-queues (include/2Dd-window.c:120-139).
  `StaticTorn` is such a run; `StaticAnswers.EmptySeen` shows that there is no other way.
- create_counter never initialises the global windows, so they start at 0 and the first increment shifts
  (src/2Dd-counter/2Dd-counter.c:16-97).
- add_linear counts the element before it finds that it was given no valid end
  (include/relaxation_analysis_queue.c:15-36).

## Model

| member | source | states |
|---|---|---|
| Relaxation.AreaBound | src/2Dd-queue/2Dd-queue.c:101-104 | distinct places inside `depth` rows of the other `width - 1` sub-structures number at most `depth * (width - 1)`, the bound the framework stores |
| Relaxation.ForWidth | src/2Dc-stack/2Dc-stack.c:88-106 | for a given width, the derived depth is the largest the requested bound allows; if none does, depth 1 with the largest width it allows; a width below 2 gives one sub-structure with bound 0 and the requested bound as its depth |
| Relaxation.ForDepth | src/2Dd-queue/2Dd-queue.c:71-81 | for a given depth, the derived width is the largest the requested bound allows; the branch for `width < 1` can never be taken |
| Relaxation.Parameters | src/2Dd-queue/2Dd-queue.c:51-104 | for every k_mode the derived width and depth are the greatest the request allows, their bound is at most the stored relaxation bound (queue: 1 row per unit of depth; stack and counter: 2), and the derived depth is at least 1 exactly unless k_mode 1 or 3 asks for less than two sub-structures and a bound of 0, or k_mode 0 for depth 0 |
| Search.PassComplete | include/2Dd-window.c:72-79 | once as many ordered hops are counted as there are sub-structures, every index has been visited |
| Search.Hop | include/2Dd-window.c:5-27 | one hop: random hops come first and restart the pass, ordered hops add exactly the index left; the walk has a decreasing measure |
| Window2Dd.Windows.constructor | include/2Dd-window.c:184-192 | both windows start at the same max, and satisfy the window invariant unless the depth is 0 |
| Window2Dd.Windows.ShiftPut | include/2Dd-window.c:79-93 | allowed only with every sub-structure full, keeps all put counts within one depth below the window |
| Window2Dd.Windows.ShiftGet | include/2Dd-window.c:152-167 | allowed only when the window is drained and something is above it; then the get window does not overtake the put window, and the next pass succeeds |
| Window2Dd.Windows.PutPass | include/2Dd-window.c:49-79 | from any index, any random hops: ends at a sub-structure with room, at once if the thread is at one, or all are full; terminates |
| Window2Dd.Windows.PutWindow | include/2Dd-window.c:30-95 | the window moves by one depth if and only if every sub-structure was full, at most once, and the search ends at one with room |
| Window2Dd.Windows.GetPass | include/2Dd-window.c:120-150 | ends at a sub-structure with an item inside the window, or the window is drained and `notempty` is exact |
| Window2Dd.Windows.GetWindow | include/2Dd-window.c:97-177 | the window moves by one depth if and only if it was drained and some item was above it, at most once; nothing is found if and only if every sub-structure is empty |
| Queue2D.EnqueueKeeps | src/2Dd-queue/2Dd-queue.c:190-238 | appending at the next row of a sub-queue inside the put window keeps the list of all items consistent with the sub-queues |
| Queue2D.InGetWindow | include/2Dd-window.c:135-139 | an item inside the get window was enqueued in the very window the get window is now at |
| Queue2D.Rank | include/2Dd-window.c:135-139 | the counting argument: at most `depth * (width - 1)` items are older than the front item of a sub-queue inside the get window |
| Queue2D.DequeueKeeps | src/2Dd-queue/2Dd-queue.c:272-288 | taking the front item of a sub-queue keeps everything else in its place and order |
| Queue2D.FrontTaken | src/2Dd-queue/2Dd-queue.c:272-288 | the item taken is in the list of all items at a place within the bound |
| Queue2D.EmptyOrder | src/2Dd-queue/2Dd-queue.c:254-260 | the queue is empty if and only if every put count equals its get count |
| Queue2D.Queue.constructor | src/2Dd-queue/2Dd-queue.c:44-142 | an empty queue with the width, depth and bound that each k_mode derives, the greatest the request allows; valid exactly unless the derived depth is 0 |
| Queue2D.Queue.Enqueue | src/2Dd-queue/2Dd-queue.c:190-238 | appends exactly one item, youngest of all, at the next row of a sub-queue with room, the one the thread is at if it has room |
| Queue2D.Queue.Append | src/2Dd-queue/2Dd-queue.c:213-237 | linking the node and advancing the put descriptor |
| Queue2D.Queue.Dequeue | src/2Dd-queue/2Dd-queue.c:240-291 | k-out-of-order: the item returned has at most `depth * (width - 1)` older items still queued, which is at most the relaxation bound; it is from the sub-queue the thread is at if that has an item in the window; nothing else changes; empty is reported if and only if the whole queue is empty |
| Queue2D.Queue.TakeFront | src/2Dd-queue/2Dd-queue.c:272-288 | swinging the get descriptor returns the oldest item of its sub-queue, at a place within the bound |
| Counter2D.Accuracy | src/2Dd-counter/2Dd-counter.c:113 | scaling up one sub-counter differs from the sum of all by at most `2 * depth * (width - 1)` |
| Counter2D.Counter.constructor | src/2Dd-counter/2Dd-counter.c:16-97 | starts at value 0 with the global windows at 0, as nothing initialises them, and with the width, depth and bound that each k_mode derives; valid exactly unless the derived depth is 0 |
| Counter2D.Counter.Answer | src/2Dd-counter/2Dd-counter.c:113 | put minus get of any sub-counter, times the width, is within the stored relaxation bound of the true value |
| Counter2D.Counter.Increment | src/2Dd-counter/2Dd-counter.c:99-123 | adds exactly 1 to the true value, in the sub-counter the thread is at if it has room; the answer is that sub-counter scaled up, and within the stored relaxation bound of the true value |
| Counter2D.Counter.Decrement | src/2Dd-counter/2Dd-counter.c:125-157 | takes exactly 1 from the true value unless it is 0, from the sub-counter the thread is at if it can; the answer is that sub-counter scaled up, and within the stored relaxation bound of the true value |
| Counter2D.Counter.Size | src/2Dd-counter/2Dd-counter.c:159-170 | is exactly the true value |
| Stack2Dc.PushKeeps | src/2Dc-stack/2Dc-stack.c:168-195 | pushing inside the window keeps the invariant: no later push lies a full depth below an earlier one |
| Stack2Dc.WindowsNear | include/2Dc-window.c:163-167 | two windows less than a depth apart differ by no more than the shifts that fit in a depth less one |
| Stack2Dc.Rank | include/2Dc-window.c:135-139 | the two-sided counting argument: younger items lie in at most `depth + shift * ((depth - 1) / shift)` rows of each other sub-stack |
| Stack2Dc.TopTaken | src/2Dc-stack/2Dc-stack.c:204-217 | popping the top of a sub-stack that reaches into the window keeps the invariant and is within the bound |
| Stack2Dc.EmptyOrder | include/2Dc-window.c:141-156 | the stack is empty if and only if every sub-stack is |
| Stack2Dc.Stack.constructor | src/2Dc-stack/2Dc-stack.c:49-135 | an empty stack with the width, depth and bound that each k_mode derives and shift `max(depth / 2, 1)`; valid exactly unless the derived depth is 0 |
| Stack2Dc.Stack.Optimized | src/2Dc-stack_optimized/2Dc-stack_optimized.c:127 | the same with the shift of the optimized variant, half the depth rounded up |
| Stack2Dc.Stack.WithShift | src/2Dc-stack/2Dc-stack.c:118-125 | a stack of given width and depth with any shift from 1 to the depth is as valid |
| Stack2Dc.Stack.Sync | include/2Dc-window.c:43-51 | a thread with the current version knows the current window |
| Stack2Dc.Stack.Shift | include/2Dc-window.c:158-183 | a shift keeps every count within one depth below the window and puts every other thread out of date |
| Stack2Dc.Stack.PutPass | include/2Dc-window.c:53-75 | ends at a sub-stack with room, or all are full; terminates |
| Stack2Dc.Stack.PutWindow | include/2Dc-window.c:36-101 | window and version move by one shift up if and only if every sub-stack was full, at most once |
| Stack2Dc.Stack.GetPass | include/2Dc-window.c:122-156 | ends at a sub-stack that reaches into the window, or all are drained and `empty` is exact |
| Stack2Dc.Stack.GetWindow | include/2Dc-window.c:104-185 | window and version move by one shift down if and only if the window was drained and the stack was not empty, at most once and never below the depth; nothing is found if and only if the stack is empty |
| Stack2Dc.Stack.RoomToShift | include/2Dc-window.c:163-167 | a drained window of a non-empty stack has a whole shift of room below it, so the guard against going below the depth never keeps it from moving |
| Stack2Dc.Stack.Push | src/2Dc-stack/2Dc-stack.c:168-195 | pushes exactly one item, youngest of all, onto a sub-stack with room, the one the thread is at if it has room; other threads stay as much up to date as the version says |
| Stack2Dc.Stack.Pop | src/2Dc-stack/2Dc-stack.c:197-231 | takes the top of a sub-stack and leaves at most `(depth + shift * ((depth - 1) / shift)) * (width - 1)` younger items behind, within the relaxation bound; empty is exact; other threads stay as much up to date as the version says |
| Stack2Dc.BoundFits | src/2Dc-stack/2Dc-stack.c:53-56 | for every shift from 1 to the depth that is at most `(2 * depth - 1) * (width - 1)`, hence at most the bound of the source |
| LateralWindows.LateralGrows | src/2Dd-queue_elastic-law/lateral_queue.c:32-48 | a window of any width and depth, begun where the last one ends, keeps the lateral contiguous |
| LawQueue.ChainAppend | src/2Dd-queue_elastic-law/2Dd-queue_elastic.c:246-254 | the gap-closed row of an enqueue follows the last row of its sub-queue with no usable row left out |
| LawQueue.ShortcutExact | src/2Dd-queue_elastic-law/2Dd-window_elastic.c:164-195 | inside the get window the put count shortcut decides exactly as the put count would, which is exactly whether the sub-queue holds an item of that window; the row dequeue computes is that item's own row |
| LawQueue.WindowDrained | src/2Dd-queue_elastic-law/2Dd-window_elastic.c:206-217 | when no sub-queue has anything to take, no item of the get window is left |
| LawQueue.FreshWindow | src/2Dd-queue_elastic-law/2Dd-window_elastic.c:206-222 | a window before the tail has an item to offer when the get side enters it |
| LawQueue.GrowKeeps | src/2Dd-queue_elastic-law/lateral_queue.c:32-48 | a new window of any width and depth keeps the invariant |
| LawQueue.AdvanceKeeps | src/2Dd-queue_elastic-law/lateral_queue.c:51-57 | moving the head past a drained window keeps the invariant |
| LawQueue.EnqueueKeeps | src/2Dd-queue_elastic-law/2Dd-queue_elastic.c:220-299 | enqueuing at the gap-closed row keeps the invariant |
| LawQueue.DequeueKeeps | src/2Dd-queue_elastic-law/2Dd-queue_elastic.c:361-379 | dequeuing at the gap-closed row keeps the invariant |
| LawQueue.Rank | src/2Dd-queue_elastic-law/2Dd-window_elastic.c:194-195 | whatever is older than a front item and still queued was put in that item's own window, so there are at most `depth * (width - 1)` of them for that window |
| LawQueue.FrontTaken | src/2Dd-queue_elastic-law/2Dd-queue_elastic.c:361-379 | the item taken is within the bound, and its row is the one dequeue computes |
| LawQueue.EmptyExact | src/2Dd-queue_elastic-law/2Dd-window_elastic.c:224-228 | with the get window at the tail and nothing to take, the whole queue is empty, and conversely an empty queue offers nothing |
| LawQueue.FoundExact | src/2Dd-queue_elastic-law/2Dd-window_elastic.c:194-228 | the get search finds something if and only if the queue is not empty |
| LawQueue.Queue.constructor | src/2Dd-queue_elastic-law/2Dd-queue_elastic.c:58-171 | an empty queue with a dummy window and one first window, of the width and depth that each k_mode derives; valid exactly unless the derived depth is 0 |
| LawQueue.Queue.UpdateWidth | src/2Dd-queue_elastic-law/2Dd-queue_elastic.c:492-501 | whatever width is set is stored, and the queue stays valid; the width is looked at when a window is made |
| LawQueue.Queue.UpdateDepth | src/2Dd-queue_elastic-law/2Dd-queue_elastic.c:463-471 | whatever depth is set is stored, and the queue stays valid; the depth is looked at when a window is made |
| LawQueue.Queue.ShiftPut | src/2Dd-queue_elastic-law/2Dd-window_elastic.c:107-123 | allowed only with the tail window full; the new tail has the width and depth set at that time |
| LawQueue.Queue.PutPass | src/2Dd-queue_elastic-law/2Dd-window_elastic.c:73-105 | ends at a sub-queue of the tail window with room, at once if the thread is at one, or the window is full; terminates |
| LawQueue.Queue.PutSearch | src/2Dd-queue_elastic-law/2Dd-window_elastic.c:73-124 | the tail moves if and only if its window was full, at most once |
| LawQueue.Queue.SyncPut | src/2Dd-queue_elastic-law/2Dd-window_elastic.c:64-71 | the index is brought inside the tail window, and left alone if it is |
| LawQueue.Queue.ShareIndex | src/2Dd-queue_elastic-law/2Dd-window_elastic.c:94-97 | the get side takes the index over exactly when its window is as wide |
| LawQueue.Queue.PutWindow | src/2Dd-queue_elastic-law/2Dd-window_elastic.c:58-126 | the search ends at a sub-queue of the tail window with room, where the thread is if there is room, after at most one shift |
| LawQueue.Queue.Enqueue | src/2Dd-queue_elastic-law/2Dd-queue_elastic.c:220-299 | appends exactly one item, youngest of all, at its gap-closed row in the tail window, in the sub-queue the thread is at if that has room |
| LawQueue.Queue.Append | src/2Dd-queue_elastic-law/2Dd-queue_elastic.c:258-298 | the put count becomes the row of the item |
| LawQueue.Queue.SyncGet | src/2Dd-queue_elastic-law/2Dd-window_elastic.c:137-156 | the index is brought inside the get window, and left alone if it is |
| LawQueue.Queue.ReadPut | src/2Dd-queue_elastic-law/2Dd-window_elastic.c:164-172 | the put count the get search uses, with its shortcut |
| LawQueue.Queue.GetPass | src/2Dd-queue_elastic-law/2Dd-window_elastic.c:158-204 | ends at a sub-queue with an item of the get window, at once if the thread is at one, or the window is drained; terminates |
| LawQueue.Queue.ShiftGet | src/2Dd-queue_elastic-law/2Dd-window_elastic.c:206-222 | allowed only with the get window drained and not the tail; the next pass succeeds unless the new window is the tail |
| LawQueue.Queue.GetSearch | src/2Dd-queue_elastic-law/2Dd-window_elastic.c:158-229 | the get window moves if and only if it was drained and not the tail, at most once |
| LawQueue.Queue.GetWindow | src/2Dd-queue_elastic-law/2Dd-window_elastic.c:128-236 | something is found if and only if the queue is not empty |
| LawQueue.Queue.ShareIndexBack | src/2Dd-queue_elastic-law/2Dd-window_elastic.c:231-234 | the put side takes the index over exactly when its window is as wide |
| LawQueue.Queue.Dequeue | src/2Dd-queue_elastic-law/2Dd-queue_elastic.c:302-389 | under any changes of width and depth: at most `depth * (width - 1)` older items stay queued, for the width and depth of the window the item was enqueued in; it is from the sub-queue the thread is at if that has an item of the get window; the get count becomes the row the item was enqueued at; empty is exact; the get window moves on by at most one |
| LawQueue.Queue.TakeFront | src/2Dd-queue_elastic-law/2Dd-queue_elastic.c:363-379 | closing the gap on the get side gives back the row of the item |
| Deque.StaleSwapFails | src/2Dd-deque/2Dd-deque.c:464-472 | a stabilizer whose anchor is no longer current never changes a pointer, however late its CAS comes |
| Deque.CallPushOk | src/2Dd-deque/2Dd-deque.c:150-157 | a new node is nobody else's |
| Deque.LinkOwnOk | src/2Dd-deque/2Dd-deque.c:189 | storing the inner pointer of an unpublished node changes nothing abstract |
| Deque.StabSwapLinkOk | src/2Dd-deque/2Dd-deque.c:463-472 | the pointer CAS of a stabilizer keeps every link of the deque right |
| Deque.StabSwapOk | src/2Dd-deque/2Dd-deque.c:474-483 | making the anchor stable changes nothing abstract, and by then all links agree |
| Deque.PublishOk | src/2Dd-deque/2Dd-deque.c:170-207 | the anchor CAS of a push adds its value at its end, on an empty and on a non-empty deque |
| Deque.PopOkStep | src/2Dd-deque/2Dd-deque.c:322-367 | the anchor CAS of a pop removes the end node and returns its value, for the last node and for others |
| Deque.StepSimulated | src/2Dd-deque/2Dd-deque.c:140-517 | every atomic step of any thread is a step of the abstract deque, which changes only at anchor CASes |
| Deque.NeverStuck | src/2Dd-deque/2Dd-deque.c:140-517 | no thread ever dereferences NULL or anything but a node, or waits for another |
| Deque.RunRefines | src/2Dd-deque/2Dd-deque.c:140-517 | every interleaving of pushes, pops and helpers, with any number of threads, is a run of the abstract deque |
| Deque.ItemsConserved | src/2Dd-deque/2Dd-deque.c:140-446 | over every run, what was pushed is what was popped and what is left, as multisets |
| DequeAnswers.EachAnswered | src/2Dd-deque/2Dd-deque.c:140-446 | over every run: each push called adds its own value at its own end, exactly once, and each pop called takes an item from its own end or gives up, before its thread calls again; nothing else is pushed or popped |
| DequeAnswers.CountsTold | src/2Dd-deque/2Dd-deque.c:170-207 | over every run, the put and get counts of each end in the anchor are the pushes and pops that took effect there |
| DequeProgress.QuietKeeps | src/2Dd-deque/2Dd-deque.c:454-517 | until an anchor is installed, what others do never adds to the steps a thread has still to take |
| DequeProgress.StepWorks | src/2Dd-deque/2Dd-deque.c:140-517 | each access takes one off the steps its thread can take before the next anchor CAS succeeds, which are at most 15 |
| DequeProgress.InstallStep | src/2Dd-deque/2Dd-deque.c:179-202 | an anchor CAS that succeeds leaves every other thread with an anchor that is out of date |
| DequeProgress.AnchorsAccounted | src/2Dd-deque/2Dd-deque.c:140-517 | every anchor CAS that succeeds is a push, a pop, or makes the last push stable |
| DequeProgress.RunLedger | src/2Dd-deque/2Dd-deque.c:140-517 | over every run, accesses made and steps left are covered by the anchors installed and the calls made |
| DequeProgress.LockFree | src/2Dd-deque/2Dd-deque.c:140-517 | lock-freedom, over every run of n threads: at most `15 * (2 * n * (pushes and pops that took effect) + calls)` accesses |
| DequeProgress.OncePerCall | src/2Dd-deque/2Dd-deque.c:140-446 | from any state on, each thread's calls end exactly once each, in an effect or a pop given up, counting a call it is in |
| DequeProgress.DoneCalled | src/2Dd-deque/2Dd-deque.c:140-446 | over every run, the calls made are the pushes and pops that took effect, the pops given up, and the calls not yet done |
| DequeProgress.AllCallsEnd | src/2Dd-deque/2Dd-deque.c:140-517 | under any schedule c calls make at most `15 * (2 * n + 1) * c` accesses in all |
| QueueProgress.LookWorks | include/2Dd-window.c:49-177 | every read brings its thread nearer to changing shared memory or to its end, or costs one of a few wasted on outdated reads |
| QueueProgress.SwapPutPays | src/2Dd-queue/2Dd-queue.c:224-237 | a CAS of the put descriptor changes shared memory exactly when the descriptor read is not out of date, and otherwise takes a step off the thread's work |
| QueueProgress.StepPays | src/2Dd-queue/2Dd-queue.c:190-291 | each access changes shared memory or takes one off the steps its thread can take before it changes, which are at most `4 * width + 25`; a call adds no more than that |
| QueueProgress.NodesStep | src/2Dd-queue/2Dd-queue.c:213-216 | exactly the link CAS that succeeds adds a node |
| QueueProgress.ChangesBounded | include/2Dd-window.c:79-93 | shared memory, windows included, has changed at most five times for every node linked |
| QueueProgress.LockFree | src/2Dd-queue/2Dd-queue.c:190-291 | lock-freedom, over every run of n threads, any width and depth: at most `(4 * width + 25) * (5 * n * (enqueues that took effect) + calls)` accesses |
| QueueProgress.OncePerCall | src/2Dd-queue/2Dd-queue.c:190-238 | from any state on, each thread links exactly as many nodes as it calls enqueue, counting one it is in |
| QueueProgress.LinksCalled | src/2Dd-queue/2Dd-queue.c:190-238 | over every run, the enqueues called are those that took effect and those not yet linked |
| QueueProgress.AllCallsEnd | src/2Dd-queue/2Dd-queue.c:190-291 | under any schedule c calls, e of them enqueues, make at most `(4 * width + 25) * (5 * n * e + c)` accesses in all |
| HierLock.NoTicketLeft | src/htlock.c:413-423 | pigeonhole: with at most `TICKETS + 1` threads on a socket, a thread that found no ticket and sees cur at its start value meets no open round |
| HierLock.GrabOk | src/htlock.c:396-416 | taking a local ticket keeps the invariant, in particular that outstanding tickets are distinct |
| HierLock.RefillOk | src/htlock.c:423 | refilling opens a round led by the refilling thread |
| HierLock.DrawOk | src/htlock.c:425-429 | a global number is drawn by one thread only |
| HierLock.CloseOk | src/htlock.c:440-449 | the release that finds nobody behind it closes the round |
| HierLock.StoreFullOk | src/htlock.c:448 | the late store of the start value cannot disturb a round opened meanwhile |
| HierLock.StoreGlobalOk | src/htlock.c:449 | the lock goes to the thread with the next global number |
| HierLock.PassOnOk | src/htlock.c:451-457 | the lock goes to the thread with the next local ticket |
| HierLock.StepKeeps | src/htlock.c:383-458 | every access of every thread keeps the invariant |
| HierLock.MutualExclusion | src/htlock.c:383-458 | over every run, no two threads hold the lock, and one global number serves at most `TICKETS` local handovers |
| HierLock.TicketsDistinct | src/htlock.c:383-458 | over every run, no two threads of a socket wait on the same local ticket and none on the same global number |
| HierLock.NoDeadlock | src/htlock.c:383-458 | over every run: while some thread is in lock or release, some thread's next step is not a spin, and if the lock is taken that thread is its owner |
| HierLock.MovesForward | src/htlock.c:383-458 | every step that is not a failed spin takes its thread nearer to the end of its release |
| HierLock.ServedGrows | src/htlock.c:383-458 | each entry into the critical section is accounted to a global number, at most one for its drawer and TICKETS for local handovers |
| HierLock.NumbersPerSocket | src/htlock.c:423-429 | the global numbers outstanding behind the current one belong to different sockets, so there are at most as many |
| HierLock.BoundedWaiting | src/htlock.c:383-458 | over every run, from any point on: while the thread with global number n waits, the critical section is entered at most `(n - cur) * (TICKETS + 1)` times, and `n - cur` is at most the number of sockets once n is drawn |
| HierLockCrowd.TakeTickets | src/htlock.c:396-416 | while a leader is inside, the next i threads of its socket can take the i highest local tickets |
| HierLockCrowd.LastRefills | src/htlock.c:418-423 | with `TICKETS` tickets taken and nobody served locally, one more thread takes the round to be over and hands out new tickets |
| HierLockCrowd.BothEnter | src/htlock.c:383-458 | with `TICKETS + 2` threads on one socket some run has two threads in the critical section |
| HierLockCrowd.MutexExactly | src/htlock.c:383-458 | mutual exclusion holds over every run if and only if no socket has more than `TICKETS + 1` threads |
| StaticQueueSteps.Stable | src/2Dd-queue/2Dd-queue.c:190-291 | what a thread knows from its reads, torn or stale, no step of another thread makes wrong |
| StaticQueueSteps.HopPasses | include/2Dd-window.c:72-76 | an ordered hop adds a sub-queue seen full to those passed |
| StaticQueueSteps.SwapPutOk | src/2Dd-queue/2Dd-queue.c:224-237 | whoever confirms a node writes the count that is its place; a torn descriptor makes the CAS fail |
| StaticQueueSteps.LinkOk | src/2Dd-queue/2Dd-queue.c:206-216 | the re-check before the link CAS keeps admission safe under torn reads |
| StaticQueueSteps.SwingOk | src/2Dd-queue/2Dd-queue.c:272-282 | the get descriptor never passes the put descriptor |
| StaticQueueSteps.PutShiftOk | include/2Dd-window.c:79-93 | the put window moves only when every sub-queue is filled to its max |
| StaticQueueSteps.GetShiftOk | include/2Dd-window.c:152-167 | the get window moves only when something was put above it, so it does not overtake |
| StaticQueueSteps.StepKeeps | src/2Dd-queue/2Dd-queue.c:190-291 | every read, CAS and store of enqueue, dequeue and the window searches keeps the invariant |
| StaticQueueSteps.EventExplained | src/2Dd-queue/2Dd-queue.c:190-291 | each sub-queue holds what was linked, in order, and what was taken is a prefix of it |
| StaticQueueSteps.Reachable | src/2Dd-queue/2Dd-queue.c:190-291 | the invariant and the history hold in every reachable state |
| StaticQueueSteps.SubQueuesFifo | src/2Dd-queue/2Dd-queue.c:190-291 | over every run, what a sub-queue returned is a prefix of what was linked to it: FIFO, nothing twice, nothing invented |
| StaticQueueSteps.Admission | include/2Dd-window.c:49-94 | in every reachable state: linked nodes, confirmed or not, are at most Put.max; put_count is at least Put.max - depth and at most one behind what was linked; get_count does not pass put_count; Get.max <= Put.max |
| StaticQueueSteps.DepthZeroBarren | include/2Dd-window.c:49-94 | with depth 0, over every run, nothing is ever linked |
| StaticAnswers.EachAnswered | src/2Dd-queue/2Dd-queue.c:190-291 | over every run: each enqueue called links its own value, exactly once, and each dequeue called takes one item or answers that there is nothing, before its thread calls again; nothing else is linked or taken |
| StaticAnswers.EmptyHolds | src/2Dd-queue/2Dd-queue.c:252-270 | a dequeue answers that there is nothing only in a state where its sub-queue holds nothing, linked or confirmed |
| StaticAnswers.ConfirmSettles | src/2Dd-queue/2Dd-queue.c:236-237 | an enqueue leaves its node confirmed, unless the descriptor it had read was torn |
| StaticAnswers.EmptySeen | include/2Dd-window.c:120-177 | over every run: a dequeue that answers that there is nothing has seen every sub-queue empty since it was called, unless the descriptor it went by was torn, its count older than its node |
| StaticAnswers.TakenInside | include/2Dd-window.c:135-139 | over every run: an item is taken by a count inside the get window, or by a dequeue that has seen every sub-queue empty since it was called |
| StaticTorn.EmptyWrongly | include/2Dd-window.c:120-139 | a run of three threads on which a dequeue with a torn descriptor answers that there is nothing, an item being in another sub-queue all the time since it was called |
| LawSteps.Stable | src/2Dd-queue_elastic-law/2Dd-queue_elastic.c:220-299 | what a thread knows from its reads, torn or stale, no step of another thread makes wrong |
| LawSteps.PassFull | src/2Dd-queue_elastic-law/2Dd-window_elastic.c:101-109 | a complete pass has seen the whole window full, whatever the order of reads |
| LawSteps.RoomIsTop | src/2Dd-queue_elastic-law/2Dd-queue_elastic.c:238-258 | the re-check makes sure that a node is linked only in the tail window, even under torn reads |
| LawSteps.NoHomeBetween | src/2Dd-queue_elastic-law/2Dd-queue_elastic.c:246-254 | the rows skipped when a gap is closed belong to no window of that sub-queue |
| LawSteps.RowGiven | src/2Dd-queue_elastic-law/2Dd-queue_elastic.c:246-254 | the gap-closed row is within the tail window and keeps the rows given out complete and in order |
| LawSteps.AllNamed | src/2Dd-queue_elastic-law/2Dd-queue_elastic.c:220-389 | every window and sub-queue a thread's next access names exists |
| LawSteps.SwapReady | src/2Dd-queue_elastic-law/2Dd-queue_elastic.c:336-350 | owner, other enqueuer or dequeuer: when its CAS can succeed, the window it computed the row from is the tail |
| LawSteps.LinkOk | src/2Dd-queue_elastic-law/2Dd-queue_elastic.c:258-274 | at most one node is ever beyond the put descriptor |
| LawSteps.WindowLinkOk | src/2Dd-queue_elastic-law/lateral_queue.c:36-43 | the window that is linked begins where the last one ends |
| LawSteps.WindowMoveOk | src/2Dd-queue_elastic-law/lateral_queue.c:45-46 | moving the tail keeps the invariant |
| LawSteps.HeadMoveOk | src/2Dd-queue_elastic-law/lateral_queue.c:51-57 | the head stays strictly before the tail |
| LawSteps.SwingOk | src/2Dd-queue_elastic-law/2Dd-queue_elastic.c:363-387 | whatever a dequeuer does to the get descriptor, the put side stays in order |
| LawSteps.StepKeeps | src/2Dd-queue_elastic-law/2Dd-queue_elastic.c:220-389 | every read, CAS and store of enqueue, dequeue and their window searches keeps the put side and the lateral in order |
| LawSteps.SameRow | src/2Dd-queue_elastic-law/2Dd-queue_elastic.c:275-298 | whichever thread confirms a node, it gets the same gap-closed row, which is within the tail window |
| LawSteps.PendingSettled | src/2Dd-queue_elastic-law/2Dd-queue_elastic.c:258-298 | while a node is pending neither its window nor its row can change |
| LawSteps.TailMoves | src/2Dd-queue_elastic-law/2Dd-window_elastic.c:107-123 | the tail moves by one, only when every index below its width has a confirmed item in every row of the window and nothing is pending |
| LawSteps.NextExists | src/2Dd-queue_elastic-law/2Dd-window_elastic.c:174-216 | the asserted next pointers are never NULL and the branch for an empty lateral is unreachable |
| LawSteps.Reachable | src/2Dd-queue_elastic-law/2Dd-queue_elastic.c:220-389 | the invariant holds in every reachable state |
| LawSteps.PutSideSafe | src/2Dd-queue_elastic-law/lateral_queue.c:32-89 | over every run and all changes of width and depth: put_count never exceeds the tail window's max, every earlier window is full in every row, windows are contiguous, tail is last or second to last, head strictly before tail |
| LawFifo.KeepsUpExactly | src/2Dd-queue_elastic-law/2Dd-queue_elastic.c:364-372 | as long as the get count kept up so far, the row a dequeuer works out is not below that of the next item if and only if the count is inside its get window, or followed by a row the sub-queue has, or past the next item's row already |
| LawFifo.StrayReturns | src/2Dd-queue_elastic-law/2Dd-queue_elastic.c:364-372 | otherwise the sub-queue takes part in the dequeuer's window and in that of the next item, but not in one between them |
| LawFifo.StrayIsLate | src/2Dd-queue_elastic-law/2Dd-queue_elastic.c:364-372 | and if no window follows that of the next item, the get count stays past the max of every window of the sub-queue but the last |
| LawFifo.ShortcutFinds | src/2Dd-queue_elastic-law/2Dd-queue_elastic.c:318-322 | where the tail is ahead and the get count is inside the get window, the item taken without a look at the tail is there |
| LawFifo.SwingFacts | src/2Dd-queue_elastic-law/2Dd-queue_elastic.c:363-379 | taking an item leaves the get node at or before the put node, and its row at most the get count, or the get count past every window of the sub-queue but the last |
| LawFifo.GetKept | src/2Dd-queue_elastic-law/2Dd-queue_elastic.c:302-389 | every step that does not stray, and every step before a window follows one that returned, keeps the get side in order, and no NULL is followed |
| LawFifo.ReachableInOrder | src/2Dd-queue_elastic-law/2Dd-queue_elastic.c:302-389 | over every such run the get side is in order and each sub-queue holds what was linked, taken from the front |
| LawFifo.OnTrackFifo | src/2Dd-queue_elastic-law/2Dd-queue_elastic.c:302-389 | whatever the widths, over every run on which no item is taken off track: what a sub-queue returned is a prefix of what was linked to it, its get node does not pass its put node, and no NULL is followed |
| LawFifo.SubQueuesFifo | src/2Dd-queue_elastic-law/2Dd-queue_elastic.c:302-389 | the same over every run, whatever its threads do, whose windows before the last never get narrower and then wider again |
| LawReturn.InAndOut | src/2Dd-queue_elastic-law/2Dd-queue_elastic.c:220-389 | an enqueue and a dequeue by the same thread: put and get count go on to the next row of the window |
| LawReturn.NextWindow | src/2Dd-queue_elastic-law/2Dd-window_elastic.c:107-123 | a full and drained window is followed on both sides by the next of a given list |
| LawReturn.Stray | src/2Dd-queue_elastic-law/2Dd-window_elastic.c:224-235 | a dequeuer that goes on after the unguarded empty return, in a window the sub-queue returned in, leaves the get count behind the row of the item it took |
| LawReturn.FollowNull | src/2Dd-queue_elastic-law/2Dd-queue_elastic.c:318-379 | once another window is begun, a dequeuer at that sub-queue reads a value through a NULL next pointer |
| LawReturn.NullFollowed | src/2Dd-queue_elastic-law/2Dd-queue_elastic.c:302-389 | for every list of windows, of any widths and depths, in which a sub-queue drops out and returns before the last, some run of any two or more threads follows a NULL |
| LawReturn.FifoExactly | src/2Dd-queue_elastic-law/2Dd-queue_elastic.c:492-501 | exactly which widths are safe: for every list of windows, all runs that make no others are FIFO per sub-queue and follow no NULL if and only if no window before the last is narrower than one before it and one after it |
| LawAnswers.EachAnswered | src/2Dd-queue_elastic-law/2Dd-queue_elastic.c:220-389 | over every run, whatever the widths: each enqueue called links its own value, exactly once, and each dequeue called takes one item or answers that there is nothing, before its thread calls again; nothing else is linked or taken |
| LawAnswers.EmptyAtEnd | src/2Dd-queue_elastic-law/2Dd-queue_elastic.c:324-333 | a dequeue answers that there is nothing only where its node is the put node and nothing is linked after it |
| LawAnswers.EmptyInOrder | src/2Dd-queue_elastic-law/2Dd-queue_elastic.c:324-333 | over every run that stays on track or whose windows never return: a dequeue answers that there is nothing only in a state where its sub-queue holds nothing, linked or confirmed |
| LawAnswers.ConfirmSettles | src/2Dd-queue_elastic-law/2Dd-queue_elastic.c:296-298 | an enqueue leaves its node confirmed, unless the count it had read was not the put count any more |
| LawHops.SearchStep | src/2Dd-queue_elastic-law/2Dd-window_elastic.c:158-204 | each access of a get search left alone brings its end nearer by one |
| LawHops.SearchEnds | src/2Dd-queue_elastic-law/2Dd-window_elastic.c:158-204 | a get search left alone ends when its hops are as many as the window is wide, which may need the 16-bit counter to go round; with nothing to take not an access earlier |
| LawHops.SpinReached | src/2Dd-queue_elastic-law/2Dd-window_elastic.c:174-197 | for every window narrower than an earlier one, some run has a search in it that takes `4 * 65536` more accesses with nothing to take |
| LawHops.GivesUpEarly | src/2Dd-queue_elastic-law/2Dd-window_elastic.c:174-228 | for every window wider than an earlier one that is at least 2 wide, some run has a dequeue answer empty with an item to take that was there when it came to the window |
| LawProgress.LookWorks | src/2Dd-queue_elastic-law/2Dd-window_elastic.c:58-126 | every read of an enqueue brings it nearer to changing the put side or to its end, or costs one of a few wasted on outdated reads |
| LawProgress.WorkBounded | src/2Dd-queue_elastic-law/2Dd-window_elastic.c:58-126 | an enqueue has at most `3 * max_width + 25` steps to take before the put side changes |
| LawProgress.StepPays | src/2Dd-queue_elastic-law/2Dd-queue_elastic.c:220-389 | each access of an enqueue changes the put side or takes one off those steps; dequeues and settings add none |
| LawProgress.NodesStep | src/2Dd-queue_elastic-law/2Dd-queue_elastic.c:258-274 | exactly the link CAS that succeeds adds a node |
| LawProgress.WindowPaid | src/2Dd-queue_elastic-law/2Dd-window_elastic.c:107-123 | index 0 has at least one row for every window before the tail |
| LawProgress.ChangesBounded | src/2Dd-queue_elastic-law/2Dd-window_elastic.c:107-123 | the put side, the list of windows included, has changed at most four times for every node linked, and once more |
| LawProgress.LockFree | src/2Dd-queue_elastic-law/2Dd-queue_elastic.c:220-299 | lock-freedom of enqueue, over every run of n threads that also dequeue and change width and depth: at most `(3 * max_width + 25) * (n * (4 * (enqueues that took effect) + 1) + enqueues called)` accesses by enqueues |
| LawProgress.OncePerCall | src/2Dd-queue_elastic-law/2Dd-queue_elastic.c:220-299 | from any state on, each thread links exactly as many nodes as it calls enqueue, counting one it is in |
| LawProgress.LinksCalled | src/2Dd-queue_elastic-law/2Dd-queue_elastic.c:220-299 | over every run, the enqueues called are those that took effect and those not yet linked |
| LawProgress.AllCallsEnd | src/2Dd-queue_elastic-law/2Dd-queue_elastic.c:220-299 | under any schedule c enqueues make at most `(3 * max_width + 25) * (n * (4 * c + 1) + c)` accesses in all |
| LateralStack.NewCountExact | src/2Dc-stack_elastic-lpw/lateral_stack.c:69-94 | each node goes down as far as what limits it and no further: the window bottom + 1 if it is not wider than put_width, the last bottom if it is and the window moved down last |
| LateralStack.NewCountLowers | src/2Dc-stack_elastic-lpw/lateral_stack.c:69-94 | a row is never raised, never lowered below the window bottom + 1, and brought there if the node is not wider than put_width |
| LateralStack.ReplaceRefines | src/2Dc-stack_elastic-lpw/lateral_stack.c:103-151 | the sharing rewrite means the same as the rewrite without sharing, and gives a well-formed list |
| LateralStack.LoweredFrom | src/2Dc-stack_elastic-lpw/lateral_stack.c:69-151 | each node left comes from one old node, with its width and at its lowered row |
| LateralStack.LoweredFalls | src/2Dc-stack_elastic-lpw/lateral_stack.c:103-151 | rows stay strictly decreasing |
| LateralStack.LoweredWide | src/2Dc-stack_elastic-lpw/lateral_stack.c:103-151 | every node left above the window bottom + 1 is wider than put_width, whatever last_shift is |
| LateralStack.WidthKept | src/2Dc-stack_elastic-lpw/lateral_stack.c:103-151 | a row keeps its width unless the node over it was lowered below it |
| LateralStack.ReplaceShares | src/2Dc-stack_elastic-lpw/lateral_stack.c:103-151 | old and new list share precisely the part from base_node, and above it the new list has exactly the nodes allocated |
| LateralStack.UpdateMeans | src/2Dc-stack_elastic-lpw/lateral_stack.c:171-190 | the same properties after the push of the old width, whatever upper bound is pushed |
| LateralStack.WidthCovers | src/2Dc-stack_elastic-lpw/2Dc-window_elastic.c:7-31 | the width the lateral gives for a row is that of the lowest node at or above it |
| LateralStack.UpdateRecords | src/2Dc-stack_elastic-lpw/lateral_stack.c:171-190 | where the window gets wider, rows up to the window bottom + 1, and where it gets narrower, rows up to the highest count of the sub-stacks left behind, are given the old width unless they were given one already; nothing else is pushed |
| LateralStack.ReclaimExact | src/2Dc-stack_elastic-lpw/lateral_stack.c:214-240 | what is freed after a successful CAS is exactly what the new descriptor does not reach; after a failed one exactly what was created |
| LateralStack.IdleExact | src/2Dc-stack_elastic-lpw/lateral_stack.c:223-227 | the CAS is skipped if and only if no node is lowered and nothing is pushed |
| LateralStack.PushWiderCount | src/2Dc-stack_elastic-lpw/lateral_stack.c:40-52 | is the highest count among the sub-stacks no longer put to |
| LateralStack.Lateral.constructor | src/2Dc-stack_elastic-lpw/lateral_stack.c:243-265 | one sentinel of row 0, wider than any window |
| LateralStack.Lateral.FreeUntil | src/2Dc-stack_elastic-lpw/lateral_stack.c:30-37 | frees each node above base_node, once |
| LateralStack.Lateral.Prepare | src/2Dc-stack_elastic-lpw/lateral_stack.c:192-227 | computes the update, unless the window moved on or it was already done in this window; updated or found up to date, the lateral records the change of width |
| LateralStack.Lateral.Publish | src/2Dc-stack_elastic-lpw/lateral_stack.c:229-240 | on either outcome of the CAS every allocated node is in the list, or freed, or still in flight, and never two of these: no leak, no double free |
| LateralStack.Lateral.Race | src/2Dc-stack_elastic-lpw/lateral_stack.c:192-241 | two threads updating in the same window: at most one CAS succeeds, and nothing is leaked |
| LateralStack.Lateral.ShiftWidth | src/2Dc-stack_elastic-lpw/2Dc-window_elastic.c:7-31 | the loop with its early exit gives the widest of both put widths and of all nodes above the bottom, so at least the width the lateral gives for any row above it, and never reads past the sentinel |
| LateralStack.PutShiftMax | src/2Dc-stack_elastic-lpw/2Dc-window_elastic.c:34-50 | the new max is the greater of the new depth and the old max plus half the new depth rounded up, so it is above the old |
| LateralStack.GetShiftBottom | src/2Dc-stack_elastic-lpw/2Dc-window_elastic.c:53-78 | every branch moves the bottom down by half the new depth, as far as row 0, so the new max is at least the new depth |
| Recorder.LinearList.constructor | include/relaxation_analysis_queue.c:6-7 | an empty list |
| Recorder.LinearList.Append | include/relaxation_analysis_queue.c:27-32 | appends at the tail of the linked list |
| Recorder.LinearList.AddHead | include/relaxation_analysis_queue.c:21-26 | adds at the head of the linked list |
| Recorder.LinearList.Add | include/relaxation_analysis_queue.c:9-38 | adds at the chosen end; for an end that does not exist, the element is counted but not linked unless the list was empty |
| Recorder.LinearList.AddRelaxedDist | include/relaxation_analysis_queue.c:41-57 | appends the node to the list of distances |
| Recorder.LinearList.TakeHead | include/relaxation_analysis_queue.c:66-80 | unlinks the first node, head and tail staying consistent |
| Recorder.LinearList.TakeAfter | include/relaxation_analysis_queue.c:99-105 | unlinks the node after the last one skipped, head and tail staying consistent |
| Recorder.LinearList.TakeOut | include/relaxation_analysis_queue.c:60-107 | unlinks the first node with the value; the others stay in order; the number skipped is the number ahead |
| Recorder.Recorder.AddLinear | include/relaxation_analysis_queue.c:9-38 | the linear copy grows at the chosen end; exactly when the call is wrong, the size is off by one from then on |
| Recorder.Recorder.RemoveLinear | include/relaxation_analysis_queue.c:60-112 | the distance recorded is exactly the number of elements ahead of the one removed; both lists stay consistent |
| Runs.Conserved | src/2Dd-queue/2Dd-queue.c:190-291 | over every history, what was there and what went in is what came out and what is left, each item as often |
| Runs.StaticCall | src/2Dd-queue/2Dd-queue.c:190-291 | one call by any of the threads answers as its history entry says and leaves all threads able to call |
| Runs.RunStaticQueue | src/2Dd-queue/2Dd-queue.c:190-291 | over every schedule of calls by any number of threads: every dequeue overtakes at most `depth * (width - 1)` older items, within the relaxation bound; empty is exact |
| Runs.BoundReached | src/2Dd-queue/2Dd-queue.c:190-291 | the bound is tight: for every width and depth some dequeue overtakes exactly `depth * (width - 1)` items |
| Runs.ElasticCall | src/2Dd-queue_elastic-law/2Dd-queue_elastic.c:220-389 | the same for the elastic queue, and for setting its width or depth |
| Runs.RunElasticQueue | src/2Dd-queue_elastic-law/2Dd-queue_elastic.c:220-389 | over every schedule of calls by any number of threads, width and depth changed at any point: every dequeue overtakes at most `depth * (width - 1)` older items, for the window its item was enqueued in; empty is exact |
| Runs.StackCall | src/2Dc-stack/2Dc-stack.c:168-231 | the same for the stack |
| Runs.RunStack | src/2Dc-stack/2Dc-stack.c:168-231 | over every schedule of calls by any number of threads: every pop leaves at most `(depth + shift * ((depth - 1) / shift)) * (width - 1)` younger items behind, within the relaxation bound; empty is exact |
| Runs.StackBoundReached | src/2Dc-stack/2Dc-stack.c:168-231 | that bound is tight: for every width, depth and shift some pop leaves exactly that many younger items behind |
| Measured.SamePlace | include/relaxation_analysis_queue.c:126-136 | stamps count up, so the element the recorder finds is the one that was taken |
| Measured.Mirror.Put | src/2Dd-queue/2Dd-queue.c:145-166 | the stamped item is the newest of the copy |
| Measured.Mirror.Take | src/2Dd-queue/2Dd-queue.c:168-187 | the distance recorded is the number of elements ahead of the one taken |
| Measured.StaticQueue.Enqueue | src/2Dd-queue/2Dd-queue.c:145-166 | mirrors the enqueue |
| Measured.StaticQueue.Dequeue | src/2Dd-queue/2Dd-queue.c:168-187 | every distance ever recorded is at most `depth * (width - 1)`, hence at most the relaxation bound |
| Measured.ElasticQueue.Enqueue | src/2Dd-queue_elastic-law/2Dd-queue_elastic.c:174-196 | mirrors the enqueue |
| Measured.ElasticQueue.Dequeue | src/2Dd-queue_elastic-law/2Dd-queue_elastic.c:198-217 | every distance ever recorded is within `depth * (width - 1)` of the window the item was enqueued in |
| Measured.Stack.Push | src/2Dc-stack/2Dc-stack.c:140-152 | mirrors the push at the head of the copy |
| Measured.Stack.Pop | src/2Dc-stack/2Dc-stack.c:140-152 | every distance ever recorded is at most `(depth + shift * ((depth - 1) / shift)) * (width - 1)`, hence at most the relaxation bound |

## Left out

- Whole operations interleaved: rank bounds and exact emptiness are proved for operations that run one at a time,
  for the reason given above.  At access level a dequeue after the empty return is not claimed to stay in its window.
- LawFifo.SubQueuesFifo: asks that no window follows one that returned, because without that it is false
  (`LawReturn.NullFollowed`).  `LawFifo.OnTrackFifo` covers the runs with such windows on which no dequeuer strays.
- LawSteps.StepKeeps: update_width and update_depth store a width from 1 to max_width and a depth of at least 1; a
  window made from anything else would have no sub-queue, sub-queues that do not exist, or no row.
- LawQueue.Queue.Enqueue: the same is asked of the width and depth set, but only if a window has to be made of them.
- LateralStack.Lateral.Prepare: the lateral's descriptor is read in one piece, where the source copies a structure of
  three words (src/2Dc-stack_elastic-lpw/lateral_stack.c:197).
- HierLock.MutualExclusion: at most NB_TICKETS_LOCAL + 1 threads on a socket, because with more it is false
  (`HierLockCrowd.BothEnter`); back-off delays, trylock and the other locks of the repository are not modelled.
- Deque.RunRefines: the choice of sub-deque by the windows (2Dd-window_maged.c) is not modelled; a pop works on an
  anchor seen non-empty or gives up, and nothing is claimed about when it gives up.  No rank bound for the deque.
- DequeProgress.LockFree: the window search that precedes an attempt is not part of the deque's model, so its accesses
  are not counted.
- LawProgress.LockFree: counts the accesses of enqueues alone.  A dequeue may be kept in its search by windows that
  keep moving, and by a hop counter gone past the width (`LawHops`).
- Update in place at access level: the state machines change a value from step to step, and name list nodes and
  anchors by their place in the order they were linked or installed, so a reused address is not modelled.
- Memory reclamation by ssmem and the frees of nodes and anchors: nodes are never recycled.  For the lateral stack,
  which nodes are freed is modelled, when their memory is reused is not.
- LateralStack.Lateral.ShiftWidth: whether the width it yields covers every sub-stack with items is not claimed.
  `last_shift` is read but never assigned in src/2Dc-stack_elastic-lpw, so it is any number, and so are the counts read
  through the array passed at src/2Dc-stack_elastic-lpw/2Dc-window_elastic.c:180.
- The search loops of the elastic stack (put_window and get_window of src/2Dc-stack_elastic-lpw): they are those of the
  static stack with a width per window.
- Wrap-around of rows, versions and tickets, the 16-bit hop counter of include/2Dc-window.c:107, and memory weaker than
  sequentially consistent.
- DIFF_DEPTHS, the width and depth controller, VALIDATESIZE returns, statistics counters, queue_size.
- Test drivers, thread pinning, random numbers (any index may come up), latency and energy measurement.
- The elastic Lateral-plus-Window queue and the optimized queue, whose search loops are not part of this model.
