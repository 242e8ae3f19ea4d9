# Model of the mt-net message server and client

mt-net distributes data messages from a server to subscribed clients. This project models its
core in Dafny and proves what the core relies on:

* the hash table, list, vector and heap that everything is built on (uthash 1.9.3 and
  `src/array_heap.c`), on real nodes and arrays, updated in place;
* the server's transmission round, as a step system in which the transmitter, any number of
  sender threads, the loader and subscription requests interleave in any order;
* the client's subscription scheduler, as a step system of two dispatchers, sender threads and
  responses that arrive at any time;
* the buffered line reader and the configuration parser.

`dafny verify dfyconfig.toml` checks the whole project.

## Files

| file | content |
|---|---|
| `Orders.dfy` | total preorders |
| `StableSort.dfy` | the bottom-up merge sort as a function: sorted, stable, unique, number of passes and comparisons |
| `Nodes.dfy`, `ListSort.dfy`, `DlList.dfy` | nodes, the in-place sort of a linked list, the doubly linked list |
| `BitMask.dfy` | masks and shifts as arithmetic on powers of two |
| `Chains.dfy` | bucket chains, bucket doubling and its statistics |
| `Bloom.dfy` | the bit vector that gates lookups |
| `HashTable.dfy`, `TableRuns.dfy` | the table with its integrity invariant; runs of operations and the map they refine |
| `Vector.dfy`, `HeapModel.dfy`, `ArrayHeap.dfy` | the growable array, heap operations as functions, the heap in place |
| `ServerRound.dfy`, `ServerTheorems.dfy`, `ServerProgress.dfy` | steps and invariants of the server, the barrier theorem, liveness and order |
| `ServerHistory.dfy` | subscriptions and loaded files over whole runs |
| `Scheduler.dfy`, `SchedulerProofs.dfy`, `SchedulerTheorems.dfy` | steps, invariants and theorems of the client's scheduler |
| `SchedulerProgress.dfy` | the client's threads do not block each other for good |
| `SchedulerRetries.dfy`, `LateResponse.dfy` | retry counts; a run with a late response |
| `SchedulerRequests.dfy`, `SchedulerWaits.dfy` | from a request and its response to the queue; how long dispatchers wait |
| `LineText.dfy`, `LineReader.dfy`, `ConfigParser.dfy`, `ConfigRoundTrip.dfy` | lines of a text in chunks, the line reader, the configuration parser, rendering and parsing back |

## How to read it

Code that updates objects in place is a class or a method on nodes and arrays, proved against
a function of the old contents; what the code is for is proved about that function. The two
concurrent parts are step systems: one atomic access to shared state is one step, a program
counter says where a thread is, and every theorem is about every reachable state or every run.
Constants and branches are those of the code. A crash, such as taking the head of an empty
queue, is a step that is never enabled, so that the progress theorems rule it out.

`HashTable.Table.Valid` is the integrity check of the library (`uthash.h:249-299`) together
with what the check cannot see: each item is in the bucket its hash gives, the tail is the last
item, the number of buckets is a power of two, the filter covers every stored hash value, and
the table is frozen exactly when the last two expansions were ineffective. Its abstract value
`items` is the insertion order.

## Where the model takes a side

* `connect_sooner` casts the address of a queue slot to a server (`src/mtn-client-updater.c:21-22`).
  The model compares the servers that the slots refer to, which is the evident intent.
* A subscription reads and changes the client map without the map's mutex
  (`src/mtn-server-receiver.c:99-131`). In the model a subscription happens only while that
  mutex is free; the barrier needs this. It is one step.
* `src/mtn-client-updater.c:151` unlocks a mutex that is not locked; here it does nothing.
* `response_cond` is shared by threads that hold different mutexes (`src/mtn-client-request.c:13`);
  a wait for a response may end at any time.
* `(last_index - 1) / 2` truncates towards zero (`src/array_heap.c:103`); `HeapModel.TruncatedHalf` does too.
* The done semaphore keeps its value when it is destroyed, and is set anew by the next round.
* A server record is cleared only as far as the size of a pointer (`src/mtn-client-server-list.c:108`),
  so its state, count and response are what the allocator left there. The model assumes that a
  server starts as `SEND_REQ`, or as `RESP` with a response, with any count and time;
  `SchedulerProofs.StatesAtStart` shows what a server that starts as `SUBSCR` would break.
* A thread that waits on a queue's condition variable sleeps until it is signalled or wakes
  spuriously; a push or a load and its broadcast are one step. A timed wait ends in time anyway, so
  that it may end at any moment.
* The loader chooses a message's key and appends it to the queue in one step: no other thread
  touches its two static variables, and it appends in the order in which it chooses.
* The table header and the caller's head pointer are one object; while the head is null there is
  no table and the header's fields mean nothing.
* The caller of the table keeps keys unique, as the library's documentation demands: it adds an
  element whose key is not in the table, and deletes what is in it.
* The list sort writes the head's back link once, after the last pass. The code writes it after
  every pass, and a later pass overwrites it.
* A comparator depends on which nodes it is given and not on their links.
* The configuration parser looks at the character before the token when the token is a quote
  standing alone (`src/mtn-config.c:187`). That character is the quote itself, so such a token
  closes the value; the model says so outright.
* The reader can lose the last character of a file that does not end with a newline.
  `LineText.LastLost` says exactly when, from the chunks alone: the last chunk is that one
  character, and the read that fetches it is made while a line is being put together.
* The length of an unterminated rest is taken for one less than it is (`src/mtn-common.c:402`). So
  one that is a character too long passes the test in line 403 and is written past the end of a line
  buffer in line 409. In the model that is an outcome of its own, after which nothing is promised;
  `LineText.Overflows` says exactly when it comes about.

## Model

| member | source | states |
|---|---|---|
| `StableSort.MergeSortSorts` | lib/uthash-1.9.3/src/uthash.h:758-835 | For every list and every comparator that is a total preorder on its elements, the bottom-up merge sort gives a sorted permutation in which each class of equal elements keeps its order |
| `StableSort.SortedIsUnique` | lib/uthash-1.9.3/src/uthash.h:758-835 | A list sorted stably is unique: two sorted lists with the same classes in the same order are equal |
| `StableSort.MergeSortIsInsertionSort` | lib/uthash-1.9.3/src/uthash.h:754-835 | The merge sort computes what a plain stable insertion sort computes |
| `StableSort.MergeSorted` | lib/uthash-1.9.3/src/uthash.h:784-822 | Merging two sorted runs gives a sorted run |
| `StableSort.MergeStable` | lib/uthash-1.9.3/src/uthash.h:784-822 | Merging keeps the order of equal elements, those of the first run before those of the second |
| `StableSort.PassSorts` | lib/uthash-1.9.3/src/uthash.h:772-824 | A pass with run length k over sorted runs leaves sorted runs of length 2k |
| `StableSort.PassStable` | lib/uthash-1.9.3/src/uthash.h:772-824 | A pass keeps the order of equal elements |
| `StableSort.BottomUpMembers` | lib/uthash-1.9.3/src/uthash.h:767-832 | No pass loses or duplicates an element |
| `StableSort.PassMergesIsCeiling` | lib/uthash-1.9.3/src/uthash.h:771-774 | A pass makes ceil(n / 2k) merges |
| `StableSort.PassesIsLog` | lib/uthash-1.9.3/src/uthash.h:764-832 | The sort makes max(1, ceil(log2 n)) passes |
| `StableSort.PassCost` | lib/uthash-1.9.3/src/uthash.h:784-822 | A pass calls the comparator at most n times |
| `StableSort.MergeCostAtLeast` | lib/uthash-1.9.3/src/uthash.h:784-822 | A merge calls the comparator at least as often as the shorter run has elements |
| `StableSort.SortCostBound` | lib/uthash-1.9.3/src/uthash.h:764-832 | The whole sort calls the comparator at most n times per pass |
| `ListSort.SplitRun` | lib/uthash-1.9.3/src/utlist.h:178-182 | Steps over a run: its length is min(k, n), and the cursor is at the element after it |
| `ListSort.Choose` | lib/uthash-1.9.3/src/utlist.h:184-193 | Takes the element the merge takes next: the other run when one is used up, the first one on a tie |
| `ListSort.Emit` | lib/uthash-1.9.3/src/utlist.h:194-200 | Links an element behind the output in both directions |
| `ListSort.MergeRuns` | lib/uthash-1.9.3/src/utlist.h:183-201 | The inner loop relinks two runs into their merge, with the comparator calls of the merge, and touches no other node |
| `ListSort.SortPass` | lib/uthash-1.9.3/src/utlist.h:169-203 | A pass relinks the list into the pass of the specification and counts its merges exactly |
| `ListSort.SortList` | lib/uthash-1.9.3/src/utlist.h:165-210 | The in-place sort relinks the very same nodes into the sorted list: next and prev mutually inverse, head and tail the first and last node, the number of passes and of comparator calls as specified |
| `DlList.List.Append` | lib/uthash-1.9.3/src/utlist.h:396-408 | Appends at the end and keeps both link directions and the head's back link to the last node |
| `DlList.List.Delete` | lib/uthash-1.9.3/src/utlist.h:410-425 | Removes exactly the given node in each of the four cases and keeps all links |
| `DlList.List.Sort` | lib/uthash-1.9.3/src/utlist.h:156-212 | The list is the stable sort of what it was, made of the same nodes, and head->prev is the true last node |
| `BitMask.MaskIsModulus` | lib/uthash-1.9.3/src/uthash.h:175-178 | The mask of a power of two is the modulus, and the shift the quotient |
| `BitMask.WiderMask` | lib/uthash-1.9.3/src/uthash.h:725-725 | Under the mask one bit wider a value stays in its bucket or moves up by the old number of buckets |
| `BitMask.CeilShiftIsCeiling` | lib/uthash-1.9.3/src/uthash.h:695-702 | The shift-and-mask formula is ceil(n / b), and positive for n > 0 |
| `Chains.Place` | lib/uthash-1.9.3/src/uthash.h:650-656 | Filing an item puts it at the front of its chain, with the links and the count of that bucket right and all other buckets as they were |
| `Chains.Unplace` | lib/uthash-1.9.3/src/uthash.h:664-674 | Removing an item from its chain keeps the links and counts of every bucket, in all positions |
| `Chains.MoveNode` | lib/uthash-1.9.3/src/uthash.h:724-736 | Moving one item into the doubled bucket array keeps chain links, counts, multipliers and the count of non-ideal items exact |
| `Chains.Redistribute` | lib/uthash-1.9.3/src/uthash.h:705-743 | Doubling files every item, and nothing else, in the bucket its hash gives under the wider mask, with exact statistics |
| `Chains.ExcessAfterAdd` | lib/uthash-1.9.3/src/uthash.h:727-728 | Counting an item as non-ideal when its bucket exceeds the ideal adds up to the sum over buckets of max(0, count - ideal) |
| `Chains.MultiplierMeans` | lib/uthash-1.9.3/src/uthash.h:727-730 | The multiplier of a bucket is the number of times the ideal length goes into its count if that exceeds the ideal, and zero otherwise |
| `Bloom.OrSetsOneBit` | lib/uthash-1.9.3/src/uthash.h:112-113 | Setting a bit in a byte sets that bit and no other |
| `Bloom.BitsAndBytes` | lib/uthash-1.9.3/src/uthash.h:96-116 | The bit of a hash value is its remainder modulo 2^nbits, and the filter has just as many bits, in whole bytes |
| `Bloom.WithBitSets` | lib/uthash-1.9.3/src/uthash.h:112-119 | Setting a bit of the vector sets that bit and no other |
| `Bloom.AddCovers` | lib/uthash-1.9.3/src/uthash.h:115-119 | Adding a hash value covers it, and uncovers none that was covered |
| `Bloom.Add` | lib/uthash-1.9.3/src/uthash.h:115-116 | The byte array becomes the old one with the one bit of the hash value set |
| `Bloom.Test` | lib/uthash-1.9.3/src/uthash.h:118-119 | Tests the bit of the hash value |
| `HashTable.Table.MakeTable` | lib/uthash-1.9.3/src/uthash.h:128-145 | A new table has 32 empty buckets, no expansions and a clear filter |
| `HashTable.Table.Add` | lib/uthash-1.9.3/src/uthash.h:150-173 | Adding puts the element at the end of the application order and keeps the whole invariant; a first element gets a table of 32 buckets; otherwise the table expands exactly if the chain has reached 10 * (expand_mult + 1) elements and the table is not frozen, and then with exact statistics and twice the buckets |
| `HashTable.Table.AddToBucket` | lib/uthash-1.9.3/src/uthash.h:650-661 | Filing an element keeps the bucket structure exact; the expansion is made exactly if the chain, with the new element, has reached 10 * (expand_mult + 1) elements and the table is not frozen, and leaves the statistics exact; otherwise number of buckets and freeze are unchanged |
| `HashTable.Table.ExpandBuckets` | lib/uthash-1.9.3/src/uthash.h:705-751 | After an expansion num_buckets has doubled and is 2^log2_num_buckets, ideal_chain_maxlen is ceil(items / buckets) and positive, nonideal_items and expand_mult are exact |
| `HashTable.Table.RecordExpansion` | lib/uthash-1.9.3/src/uthash.h:742-749 | The ineffective expansions in a row are counted, and the table is frozen at the second one |
| `HashTable.TrailingIsTwo` | lib/uthash-1.9.3/src/uthash.h:744-749 | The freeze condition means exactly that the last two expansions were ineffective |
| `HashTable.DoublingSplits` | lib/uthash-1.9.3/src/uthash.h:720-739 | Each item of bucket i is, after doubling, in exactly one of the buckets i and i + num_buckets |
| `HashTable.Table.Find` | lib/uthash-1.9.3/src/uthash.h:82-93 | Finding returns the element that the insertion-ordered list has for the key, with and without the filter |
| `HashTable.Table.FindInBucket` | lib/uthash-1.9.3/src/uthash.h:636-647 | Walking a chain finds an element with the key, or there is none in it |
| `HashTable.Table.Reachable` | lib/uthash-1.9.3/src/uthash.h:86-91 | An element with the key passes the filter and is in the chain that the search walks |
| `HashTable.Table.Delete` | lib/uthash-1.9.3/src/uthash.h:192-225 | Deleting removes exactly the element from the application order, drops the table with the last one, and keeps the whole invariant |
| `HashTable.Table.UnlinkItem` | lib/uthash-1.9.3/src/uthash.h:203-222 | Unlinking an element repairs head, tail, both neighbours and the count |
| `HashTable.Table.Sort` | lib/uthash-1.9.3/src/uthash.h:758-835 | Sorting changes the application order to its stable sort and resets head and tail; bucket chains are not touched, and the invariant is kept |
| `HashTable.Table.RemoveExpired` | src/mtn-server-transmitter.c:80-98 | Iterating with deletion of the current element visits every element once and leaves exactly the unexpired ones in order |
| `HashTable.WhoSurvives` | src/mtn-server-transmitter.c:80-98 | Exactly the elements survive whose time stamp is at most the lifetime before the reading for them |
| `HashTable.SurvivorsInOrder` | src/mtn-server-transmitter.c:80-98 | Survivors keep their order |
| `HashTable.Table.VisitElement` | lib/uthash-1.9.3/src/uthash.h:891-898 | One step of the safe iteration goes to the next element whether or not the current one was deleted |
| `HashTable.LookupIs` | lib/uthash-1.9.3/src/uthash.h:636-647 | With unique keys the element of a key is the only one that has it |
| `HashTable.LookupAfterAdd` | lib/uthash-1.9.3/src/uthash.h:150-173 | An addition changes the lookup of its own key and of no other |
| `HashTable.LookupAfterDelete` | lib/uthash-1.9.3/src/uthash.h:192-225 | A deletion takes its key away and changes no other lookup |
| `HashTable.LookupAfterRearranging` | lib/uthash-1.9.3/src/uthash.h:758-835 | Sorting changes no lookup |
| `HashTable.CountsAgree` | lib/uthash-1.9.3/src/uthash.h:255-298 | The chain lengths add up to the number of items, as the integrity check demands |
| `TableRuns.Perform` | lib/uthash-1.9.3/src/uthash.h:82-225 | Each operation of a caller that keeps keys unique has its effect on the insertion-ordered list, and a find returns its lookup; as long as the table is not emptied no expansion is undone, and a frozen table stays frozen with the same number of buckets |
| `TableRuns.Run` | lib/uthash-1.9.3/src/uthash.h:249-299 | Every run of additions, deletions, finds and sorts keeps the whole invariant and has the effect of the run on the insertion-ordered list; if no prefix of the run empties the table, a frozen table keeps its freeze and its number of buckets to the end |
| `TableRuns.EffectKeepsUnique` | lib/uthash-1.9.3/src/uthash.h:82-225 | Each operation keeps keys unique |
| `TableRuns.EffectAgrees` | lib/uthash-1.9.3/src/uthash.h:82-225 | Each operation keeps the list and an abstract map in agreement about every key |
| `TableRuns.RunRefinesMap` | lib/uthash-1.9.3/src/uthash.h:82-225 | Over every run from the empty table lookups are those of a map |
| `Vectors.Vector.Reserve` | lib/uthash-1.9.3/src/utarray.h:88-93 | Keeps the contents and gives the vector the grown capacity |
| `Vectors.GrownIsDoubled` | lib/uthash-1.9.3/src/utarray.h:90-90 | A grown capacity suffices; it is the old one, or 8 if there was none, doubled as often as necessary and no more |
| `Vectors.Vector.PushBack` | lib/uthash-1.9.3/src/utarray.h:95-99 | Appends one element |
| `Vectors.Vector.PopBack` | lib/uthash-1.9.3/src/utarray.h:101-104 | Drops the last element |
| `Vectors.Vector.Insert` | lib/uthash-1.9.3/src/utarray.h:118-128 | Inserts an element before a position, or nothing beyond the end |
| `Vectors.Vector.InsertAll` | lib/uthash-1.9.3/src/utarray.h:130-149 | Inserts a vector before a position, or nothing beyond the end; appending a vector to itself doubles it |
| `Vectors.Vector.Resize` | lib/uthash-1.9.3/src/utarray.h:151-170 | Cuts off, or fills up with zero elements |
| `Vectors.Vector.Erase` | lib/uthash-1.9.3/src/utarray.h:176-188 | Removes a range |
| `ArrayHeap.Heapify` | src/array_heap.c:27-90 | The in-place sift-down is the specified one |
| `ArrayHeap.HeapBuild` | src/array_heap.c:93-109 | The in-place build is the specified one, the truncating division for one element included |
| `ArrayHeap.HeapPush` | src/array_heap.c:112-144 | The in-place push is the specified one |
| `ArrayHeap.HeapPop` | src/array_heap.c:147-165 | The in-place pop is the specified one, and does nothing on an empty heap |
| `ArrayHeap.HeapLeast` | src/array_heap.c:168-171 | On a heap the first element is no later than any other |
| `HeapModel.SiftDownHeap` | src/array_heap.c:27-90 | Sifting down repairs a heap that is broken at one node only |
| `HeapModel.SiftUpHeap` | src/array_heap.c:118-143 | Sifting up repairs a heap that is broken above one node only |
| `HeapModel.BuildHeap` | src/array_heap.c:93-109 | For any comparator between the strict and the weak form of a total preorder, building makes a heap of any array, of the same elements |
| `HeapModel.PushHeap` | src/array_heap.c:112-144 | Pushing keeps the heap order |
| `HeapModel.PushMembers` | src/array_heap.c:112-144 | Pushing adds exactly the pushed element |
| `HeapModel.PopHeap` | src/array_heap.c:147-165 | Popping keeps the heap order |
| `HeapModel.PopMembers` | src/array_heap.c:147-165 | Popping removes exactly the first element |
| `HeapModel.RootIsLeast` | src/array_heap.c:168-171 | The root of a heap is no later than any element |
| `HeapModel.DrainSorts` | src/array_heap.c:147-171 | Taking the first element until the heap is empty gives a sorted permutation |
| `HeapModel.HeapSort` | src/array_heap.c:93-171 | Building a heap of any array and draining it sorts the array |
| `ServerRound.StepInv` | src/mtn-server-transmitter.c:34-118 | Every step of the transmitter, of any sender, of the loader and of a subscription keeps all invariants: slot conservation, the barrier count, mutex ownership, wake-ups, the queue, the senders' messages, the clients of the round, the assignment of senders, clients in use, and message keys |
| `ServerRound.InitialInv` | src/mtn-server-transmitter.c:45-55 | The invariants hold at the start |
| `ServerRound.IterationBarrier` | src/mtn-server-transmitter.c:80-98 | Through the iteration the done semaphore equals the unvisited clients plus the senders that have not decremented it |
| `ServerRound.SendBarrier` | src/mtn-server-transmitter.c:231-233 | Each step of a sender keeps the barrier count |
| `ServerRound.SendWake` | src/mtn-server-transmitter.c:34-43 | A sender's step keeps the wake-up invariant, whatever senders of earlier rounds do |
| `ServerRound.TransmitWake` | src/mtn-server-transmitter.c:103-108 | The transmitter goes to sleep only when a wake-up is still to come |
| `ServerRound.IterationClients` | src/mtn-server-transmitter.c:80-98 | Through the iteration the map is the clients found live so far and those still to be visited, in order; with `ServerTheorems.StepExpiry` these are the clients whose subscription is at most 5 seconds old |
| `ServerRound.SpawnAssigned` | src/mtn-server-transmitter.c:94-96 | Each live client gets its one sender |
| `ServerRound.LoadKeys` | src/mtn-server-data-message.c:168-191 | Under a non-decreasing clock each loaded message's (release_time, id) is above all earlier ones |
| `ServerRound.SubscribeInv` | src/mtn-server-receiver.c:99-131 | A subscription between iterations keeps all invariants |
| `ServerHistory.SubscriptionIsStored` | src/mtn-server-receiver.c:99-131 | A subscription gives its client the present time: a known client keeps its place, a new one comes last, every other entry and all other state is unchanged |
| `ServerHistory.OnlySubscriptionsStore` | src/mtn-server-receiver.c:99-131 | No other step adds or changes a client |
| `ServerHistory.TimeOfSubscription` | src/mtn-server-receiver.c:101-124 | In every run the time of each client is the clock of its latest subscription |
| `ServerHistory.LoadAppends` | src/mtn-server-data-message.c:171-191 | A load appends one message with the given file and the present time to the queue; its id is zero when the second has changed, and otherwise one more than the last |
| `ServerHistory.MessagesAreLoads` | src/mtn-server-data-message.c:168-191 | In every run the loaded messages are the loaded files, in order, each with the clock of its loading, numbered from zero within each second; the very first second is numbered from one if the clock then reads zero |
| `ServerTheorems.Barrier` | src/mtn-server-transmitter.c:63-118 | In every run, when the transmitter has left its wait, every client of the round is expired and without a sender, or has exactly one sender, which is done with sending and has sent exactly the head of the queue, once |
| `ServerTheorems.BarrierInTime` | src/mtn-server-transmitter.c:79-108 | The same in terms of time: a client of the round whose last subscription was more than 5 seconds before the clock reading for it has no sender; any other has exactly one, which has sent the head of the queue once |
| `ServerTheorems.OnlyExpiredRemoved` | src/mtn-server-transmitter.c:80-100 | When the iteration releases the client map, a client of the round is still in it, and has got its sender, exactly if its last subscription is at most 5 seconds before the clock reading taken for it; the map keeps those clients in their old order |
| `ServerTheorems.VisitDecides` | src/mtn-server-transmitter.c:82-97 | The same for one client, from the invariants |
| `ServerTheorems.StepExpiry` | src/mtn-server-transmitter.c:82-97 | Every step keeps: a visited client was removed exactly if its last subscription was more than 5 seconds before the clock reading for it |
| `ServerTheorems.ReachableInv` | src/mtn-server-transmitter.c:57-118 | The invariants hold in every reachable state |
| `ServerProgress.AtMostThreeActive` | src/mtn-server-transmitter.c:93-96 | Never more than three senders are between taking and giving back a slot |
| `ServerProgress.DoneNeverBlocks` | src/mtn-server-transmitter.c:34-37 | A sender's own decrement of the done semaphore never blocks, nor does the transmitter's for an expired client |
| `ServerProgress.NoLostWakeUp` | src/mtn-server-transmitter.c:34-43 | When the transmitter sleeps and the count is zero, some sender is still before its signal check |
| `ServerProgress.SignalAtZero` | src/mtn-server-transmitter.c:36-42 | With the mutex in hand a thread signals exactly if it reads zero, a sender as well as the transmitter for an expired client |
| `ServerProgress.SleepsAndWakes` | src/mtn-server-transmitter.c:65-107 | The transmitter falls asleep exactly on an empty queue, or on a done count that is not zero; it wakes exactly when a message is loaded, or a sender signals, or for no reason |
| `ServerProgress.WorldShutOut` | src/mtn-server-transmitter.c:63-118 | In every reachable state a file can be loaded exactly while the transmitter is outside the part from its look at the queue to the removal of the head, and a client can subscribe exactly while it is outside the iteration |
| `ServerProgress.ClientsOutliveSenders` | src/mtn-server-transmitter.c:85-96 | No client is freed while a sender may read its address |
| `ServerProgress.Progress` | src/mtn-server-transmitter.c:57-118 | Unless the transmitter sleeps for want of a message some thread can always step, whichever mutexes the transmitter holds |
| `ServerProgress.AsleepWithoutMessage` | src/mtn-server-transmitter.c:65-69 | The transmitter sleeps, not woken, only while the queue is empty: no message is loaded without waking it |
| `ServerProgress.HeadIsThere` | src/mtn-server-transmitter.c:112-116 | The queue is not empty when the transmitter takes its head, nor when a sender reads it |
| `ServerProgress.MeasureStep` | src/mtn-server-transmitter.c:74-110 | Every thread step in a round decreases a natural number; the outside world raises it only by a spurious wake-up |
| `ServerProgress.RoundIsBounded` | src/mtn-server-transmitter.c:74-110 | However the steps interleave, a round has only finitely many thread steps |
| `ServerProgress.RoundCanFinish` | src/mtn-server-transmitter.c:74-110 | From every state in a round the threads can take the round to its end, with the round complete |
| `ServerProgress.SentIsPrefix` | src/mtn-server-transmitter.c:112-118 | Loaded messages are the sent ones, then the one in transfer, then the queue; keys of sent messages are distinct |
| `ServerProgress.RoundsFollowLoading` | src/mtn-server-transmitter.c:190-195 | Rounds go through the loaded messages in order, and each sender has read the message of its round |
| `SchedulerProofs.StepInv` | src/mtn-client-updater.c:85-262 | Every step of a dispatcher, a sender or the receiver keeps all invariants: ownership, lane mutexes, slots, heap order, states of queued servers, responses |
| `SchedulerProofs.InitialInv` | src/mtn-client-updater.c:58-83 | The invariants hold after all servers have been pushed and the heap has been built, if servers start as SEND_REQ, or as RESP with a response |
| `SchedulerProofs.StatesAtStart` | src/mtn-client-updater.c:64-71 | The first queue starts without a SUBSCR server exactly if no server starts as SUBSCR |
| `SchedulerProofs.SoonerIsPreorder` | src/mtn-client-updater.c:17-43 | The comparator of the queues puts the server with fewer failures first, and among as many the one whose last attempt is not more recent; that is a total preorder on servers and meets the heap's demand |
| `SchedulerProofs.DispatchOwned` | src/mtn-client-updater.c:171-262 | A dispatcher's step moves its server between queue, hand and a new sender and loses none |
| `SchedulerProofs.SendOwned` | src/mtn-client-updater.c:144-168 | A sender's step moves its server into one queue and loses none |
| `SchedulerProofs.SendHeaps` | src/mtn-client-request.c:58-59 | Count and time of a server change only while it is in neither queue, so both queues stay heaps |
| `SchedulerProofs.ReceiveInv` | src/mtn-client-request.c:96-110 | A response at any time, to any known server, keeps all invariants |
| `SchedulerProofs.SendSlots` | src/mtn-client-updater.c:165-166 | A sender's steps keep the slot count |
| `SchedulerTheorems.OnePlaceEach` | src/mtn-client-updater.c:85-262 | In every reachable state each server is in exactly one of: the two queues, a dispatcher's hand, a sender |
| `SchedulerTheorems.QueueStates` | src/mtn-client-updater.c:144-163 | The not subscribed queue never holds a SUBSCR server; the subscribed queue only SUBSCR servers or ones with a response waiting |
| `SchedulerTheorems.DispatchesTheSoonest` | src/mtn-client-updater.c:187-203 | The server about to be popped is the first of its queue, and no server in the queue has failed less often, or as often with its last attempt longer ago |
| `SchedulerTheorems.NothingCrashes` | src/mtn-client-updater.c:179-203 | The heap is not empty at any look at its first element, re-reads after a wait included; threads wait only for a mutex, a slot, or a server to come while their queue is empty |
| `SchedulerTheorems.SlotsAddUp` | src/mtn-client-updater.c:165-215 | Free slots, running senders and slots taken but not yet used add up to three |
| `SchedulerTheorems.PushesWait` | src/mtn-client-updater.c:146-162 | A sender can push a server exactly while the dispatcher of that queue is outside the part from its look at the queue to the release of the mutex, or waits |
| `SchedulerProgress.AsleepWithoutServer` | src/mtn-client-updater.c:179-183 | A dispatcher sleeps, not woken, only while its queue is empty: no server is pushed without waking it |
| `SchedulerProgress.SleepsWhileEmpty` | src/mtn-client-updater.c:177-183 | A dispatcher falls asleep exactly on an empty queue, and wakes exactly when a server is pushed into it, or for no reason |
| `SchedulerProgress.SomeoneCanStep` | src/mtn-client-updater.c:85-262 | As long as there is a server, some thread of the client can step; a sleeping dispatcher does not count |
| `SchedulerProgress.SlotServed` | src/mtn-client-updater.c:165-166 | When a dispatcher waits for a request slot and all are in use, the threads alone can reach a state in which it can take one |
| `SchedulerProgress.SlotComesFree` | src/mtn-client-updater.c:85-169 | A running sender, and the dispatcher that holds the mutex it needs, can go on until the slot is given back |
| `SchedulerProgress.SenderIsBounded` | src/mtn-client-updater.c:85-169 | A sender takes at most seven steps, and two more for each time its wait for a response ends early, whatever else happens |
| `SchedulerRetries.RetriesInGroups` | src/mtn-client-request.c:58-66 | In every run a server is in WAIT only after a rejection or a multiple of MAX_NOT_CONNECT_COUNT failures in a row, is SUBSCR only below that number, and is sent a request only when it is not in WAIT |
| `SchedulerRetries.WhoIsWaitedFor` | src/mtn-client-updater.c:189-190 | In every reachable state the first dispatcher has to wait for a queued server exactly if it is RESP, or WAIT and not due; after a number of failures that is not a multiple of the allowed one, exactly if it is RESP |
| `LateResponse.QueuedWithResponse` | src/mtn-client-updater.c:189-190 | A run in which a request times out, the server is queued again and then answers: it has failed once and is waited for at any time |
| `SchedulerRetries.StepRetries` | src/mtn-client-updater.c:144-209 | Every step keeps the retry counts in line with the states, responses during a request included |
| `SchedulerRequests.WhoWritesWhat` | src/mtn-client-request.c:51-110 | Field by field, which steps write to a server and what: a response, a mark, an evaluated response (SUBSCR for an acceptance, WAIT for anything else, and the response cleared), a failure (counted, dated by its request, WAIT at each third one), an answer (count set to zero, dated by its arrival) |
| `SchedulerRequests.ThirdFailureWaits` | src/mtn-client-request.c:58-66 | In every reachable state a failure makes a server WAIT exactly if the count of failures becomes a multiple of three |
| `SchedulerRequests.StagesOfRequest` | src/mtn-client-request.c:26-94 | A sender waits only after a request that was sent and while there is no response; it evaluates a response exactly if it finds one; it goes on to the queues after a failed send, a timeout, or an evaluation |
| `SchedulerRequests.ResponseDecides` | src/mtn-client-updater.c:93-163 | Over every run: unless a further response of the server comes before the push, an accepted server is pushed into the subscribed queue, in SUBSCR, and any other into the first queue, in WAIT |
| `SchedulerRequests.PushedWhere` | src/mtn-client-updater.c:144-163 | A push adds exactly the server to the chosen queue, and touches neither the other queue nor any server |
| `SchedulerRequests.FailureIsDated` | src/mtn-client-request.c:37-66 | Over every run: a request that is not answered in time counts as one more failure, dated by the clock when it was sent |
| `SchedulerWaits.PopsWhenDue` | src/mtn-client-updater.c:185-203 | Over every run: a dispatcher that has read the clock pops the first server exactly if that server is due (to be asked, 30 seconds after the attempt that made it WAIT, or 5 seconds after its subscription), or if the last wait at this queue ended by its timeout; otherwise it waits with the mutex released |
| `SchedulerWaits.OnlyTestsPop` | src/mtn-client-updater.c:239-252 | There is no other way to a pop |
| `SchedulerTheorems.KeysFixedWhileQueued` | src/mtn-client-request.c:58-89 | The count and the time of a server change in no step while it is in a queue |
| `SchedulerTheorems.MoreFailuresLater` | src/mtn-client-updater.c:187-203 | A server that has failed more often, or as often and more recently, is not popped as long as the other one stays in the queue |
| `LineReader.Reader.GetFileLine` | src/mtn-common.c:363-421 | One call skips newlines if asked to and delivers the next line, over any number of reads; at the end it gives -1; an unterminated rest comes out with a length one too small, without its last character exactly if that is lost; it overruns a buffer exactly if the rest, or what follows one of its reads, is unterminated, not lost and one character too long; any other length over LINE_MAX_SIZE ends the program |
| `LineReader.Reader.TakeLine` | src/mtn-common.c:376-414 | The same from the buffer on |
| `LineReader.Reader.TakeRest` | src/mtn-common.c:393-412 | The same for a line that goes on in the next read, through the recursive call and its own line buffer |
| `LineText.JoinedLine` | src/mtn-common.c:398-411 | Joining the part in the buffer with what the recursive call gives: the recursive length of a lone last character is zero, so that it is dropped, and a rest of LINE_MAX_SIZE + 1 characters passes the test and overruns the buffer |
| `LineReader.Reader.ReadNonEmpty` | src/mtn-common.c:363-421 | What a call delivers fits and is, unless empty, the next of the non-empty lines of the text, or of the text without a lost character; a call that ends otherwise has met a line that does not fit |
| `LineReader.Reader.ReadAll` | src/mtn-common.c:363-421 | For any chunking of any text, repeated calls end well exactly if all lines fit, and overrun a buffer exactly if all terminated lines fit and the rest overflows; if they end well they give, but for empty ones, exactly the text's non-empty lines if and only if its last character is not lost, and leave the reader clean |
| `LineText.LostIsUnterminated` | src/mtn-common.c:376-412 | Only a text that does not end with a newline can lose its last character |
| `LineText.LostShows` | src/mtn-common.c:376-412 | A lost character always shows in the lines |
| `LineText.LinesWritten` | src/mtn-common.c:363-421 | The lines of a text have no newlines and, written one after the other with a newline each, give the text back, with the newline it may have lacked at its end |
| `LineText.NonEmptyConcat` | src/mtn-common.c:378-383 | Leaving out empty lines leaves every other line, in order |
| `LineText.AfterSkipping` | src/mtn-common.c:378-383 | Skipping leading newlines decides, like the recursive call, where the next read comes |
| `LineReader.LoneCharacter` | src/mtn-common.c:398-411 | Concrete files: "abc" read as "ab" and "c" loses its last character, read as "abc" or as "a" and "bc" it does not |
| `LineReader.OneLine` | src/mtn-common.c:398-411 | A file without a newline, whose last read is not a lone character, ends well exactly if it fits, and overruns a buffer exactly if it or what follows one of its reads has LINE_MAX_SIZE + 1 characters |
| `LineReader.LongFiles` | src/mtn-common.c:403-409 | Concrete files: 4097 letters overrun the buffer of the call, 4099 read as 2, 4095 and 2 that of the recursive call, 4099 read as 3, 4094 and 2 end the program |
| `LineText.LongLine` | src/mtn-common.c:403-406 | A call that does not end well has met a line that does not fit |
| `LineText.CallEnd` | src/mtn-common.c:363-421 | What the end of a call, or the rest of the file after it, says about an overrun holds of the whole file |
| `ConfigParser.GetToken` | src/mtn-common.c:423-436 | A token is the first run of characters that are not blank, taken as far as it goes, with nothing but blanks before it |
| `ConfigParser.BlanksSeparate` | src/mtn-config.c:151-151 | Spaces and tabs, any number of them, separate tokens and do nothing else |
| `ConfigParser.TokenIs` | src/mtn-common.c:423-436 | Any characters but spaces and tabs make one token, up to the next of these |
| `ConfigParser.TokensOfJoin` | src/mtn-common.c:423-436 | Splitting undoes joining words with spaces |
| `ConfigParser.Parser.SetConfigValue` | src/mtn-config.c:82-121 | A known name gets the value, an unknown one is refused and nothing changes |
| `ConfigParser.Parser.TakeValue` | src/mtn-config.c:167-203 | One token of a value: an unquoted value is the whole token; words of a quoted value are joined by single spaces, quotes taken off |
| `ConfigParser.Parser.ParseLine` | src/mtn-config.c:140-224 | A line finds at most one entry, drops a name without a value, and leaves the parser idle or inside a quoted value |
| `ConfigParser.Parser.ParseConfigFile` | src/mtn-config.c:123-226 | For any chunking of any file parsing ends well exactly if all lines fit, and overruns a buffer exactly if the reader does; if it ends well the configuration becomes the old one with all entries of the file, or of the file without a lost last character, assigned in order, and the reader is left clean |
| `ConfigParser.LastValueWins` | src/mtn-config.c:82-121 | Each known name ends up with the value of its last entry; no name appears or disappears |
| `ConfigParser.EmptyLines` | src/mtn-config.c:138-138 | Empty lines that the reader delivers make no difference |
| `ConfigRoundTrip.EntrySpread` | src/mtn-config.c:151-224 | A quoted value is its words joined by single spaces, however they are spread over lines and whatever follows the closing quote |
| `ConfigRoundTrip.ValueSpread` | src/mtn-config.c:167-203 | The same from inside a quoted value |
| `ConfigRoundTrip.PlainValue` | src/mtn-config.c:176-202 | A line with a name and a token that does not start with a quote sets the name to exactly that token, whatever follows on the line |
| `ConfigRoundTrip.EmptyValue` | src/mtn-config.c:171-193 | Two quotes, or one standing alone, are the empty value |
| `ConfigRoundTrip.InnerQuotes` | src/mtn-config.c:176-202 | Inside a quoted value a token loses one quote at its start and one at its end, which closes the value; quotes further in are kept |
| `ConfigRoundTrip.LinesWithoutEntry` | src/mtn-config.c:140-162 | A comment, a name without a value and a line of blanks say nothing, and the next line is read as if it came first |
| `ConfigRoundTrip.RenderedLine` | src/mtn-config.c:151-224 | A rendered setting, with a bare value, an empty one or one of several quoted words, is read back as exactly that name and value |
| `ConfigRoundTrip.RenderedFile` | src/mtn-config.c:123-226 | Parsing rendered settings, with bare and with quoted values, gives the settings back, in order |
| `ConfigRoundTrip.LoadRendered` | src/mtn-config.c:123-226 | The same through the reader, for any chunking: each known name ends up with its last value, unless a line does not fit, which ends the program |

## Left out

- HASH_SELECT (`uthash.h:842-878`): it updates neither the tail nor the filter of the destination, so the table invariant does not hold after it.
- A bound on chain lengths after an expansion: the code gives none, since multipliers and the freeze relax it.
- The bodies of the hash functions: the hash is an arbitrary function of the key; nothing may depend on more.
- LL_SORT and CDL_SORT: the same merge loop without, or with circular, back links.
- utarray_sort, which is the C library's sort, and element constructors and destructors of a vector.
- Vectors.Vector.InsertAll: inserting a vector into itself before its end is not modelled, since it would be copied over its own source; appending it to itself is.
- Vectors.Vector.Erase: a range beyond the end is not modelled, since the code reads and counts past the end.
- HashTable.Table.Sort: comparators that read node fields are modelled as functions of the node alone.
- ConfigParser.Parser.ParseConfigFile: files with tokens or names longer than their buffers, and with NUL characters, are not modelled; nor is the buffer of a value, which has the size of a pointer (`src/mtn-config.c:45`, `src/mtn-config.c:91`), so that values of 8 or more characters do not fit.
- SchedulerProofs.InitialInv: it assumes the initial states that the pointer-sized clearing of a server record (`src/mtn-client-server-list.c:108`) does not establish.
- Retrying a server no earlier than NEXT_CONNECT_ATTEMPT_TIME after its last attempt: the first server is read again after a timed wait and may be a different one, so the code does not guarantee it. `SchedulerWaits.PopsWhenDue` says exactly when a server is popped.
- A response from an unknown address: `receive_response` does not check for it.
- SchedulerProgress.SlotServed: that a fair scheduler serves every dispatcher follows from this lemma and the bound on each sender, but schedules as infinite sequences are not modelled.
- ServerProgress.RoundCanFinish: that a fair scheduler finishes a round follows from this lemma and the bound, but schedules as infinite sequences are not modelled.
- Sending the head and the blocks of a message: one step that always succeeds; the wire format is not modelled.
- The move of a sent message's file and the free of the queue node: file handling.
- Empty message files, which the loader ignores.
- `strcopy`, `str_replace` and protocol tags: easy members.
- Sockets, files, directories, signals, printing, failure of memory allocation, and overflow of counters and sizes.
