# Lock-free containers of libcds 0.8.0: a Dafny model

This project models the concurrent core of libcds 0.8.0 and of the queues and the bag added to it: the
split-ordered hash map over Michael's insert-only list, the three memory reclamation schemes (hazard
pointers, pass-the-buck, hazard pointers with reference counting), the bag with one adder and one remover,
the two single-producer single-consumer queues, and the reentrant spinlock.

Protocols are step machines: one step is one shared load, store or compare-and-swap, memory is sequentially
consistent, and the theorems speak about every run, that is, every interleaving of any number of threads
(where the protocol allows more than one or two). Loops that work in place on arrays and object fields are
methods over arrays and classes, proved against a specification.

| files | what they hold |
|---|---|
| `PowerOfTwo`, `Ring`, `Runs`, `Sorting`, `Options` | arithmetic, induction over runs, sort and binary search, absent values |
| `BitScan`, `BitReversal`, `SplitOrder` | bit tricks, and the recursive split order that rests on them |
| `SplitListMachine` to `SplitListSolo` | the map and the list as a machine; its invariant; the proof of each step; theorems about runs: linearizability, initialization of buckets, growth, lock-freedom, and that calls end |
| `BucketTable`, `SegmentMachine` | the bucket table's size and its segments; threads that make segments at the same time |
| `RetiredPointers`, `HazardScan`, `HazardRecords`, `HazardMachine` | the hazard pointer scans, inheriting of records, and safety in every interleaving |
| `PassTheBuck`, `PassTheBuckMachine` | liberate and its hand-off slots; safety in every interleaving |
| `HrcHandshake` | scanner against cleaners in one slot of a retired array |
| `BagMachine` to `BagSolo` | the bag as a machine, its block chain, conservation, why "nothing found" means empty, what the callers get, what the remover notices of adds, and why calls end |
| `FastForward`, `CircularFifo` | the two queues |
| `ReentrantLock` | the spinlock |

Fields such as `history`, `at`, `chain`, `pushed`, `added`, `held`, `alive`, `due` and `depth` record what the
theorems speak about. What a step does to the other fields never depends on them. What a call answers is stated
for whole calls, from the event that begins the call, with its arguments, to the answer that the caller gets.

## Where a promise fails

Four promises do not hold of the code as it stands. Each has a lemma or method that shows a failing case,
and a theorem that says when the promise is kept.

- The capacity of the bucket table reaches the number of buckets wanted: `exp2Ceil` rounds to the nearest power
  of two, and for 3 to 1024 buckets nothing corrects that. Five buckets wanted make four
  (`BucketTable.TooFewBuckets`). `BucketTable.CalcMetrics` states for which numbers the promise is kept.
- A cleaner never calls `cleanUp` on a destroyed node, whatever reuse of slots: assigning a node to a retired
  slot resets `m_nClaim`, and that may erase the claim of a cleaner that still looks at the former node. One
  cleaner suffices (`HrcHandshake.OneCleanerSuffices`). Runs in which each reset finds the counter at 0 are safe
  (`HrcHandshake.HandshakeSafe`), and any reset that finds another value can be continued to a violation
  (`HrcHandshake.WipeDooms`). The assertion in `retired_vector::push` tests the counter earlier, and is satisfied in
  all these continuations: the claim comes between the assertion and the reset.
- The spinlock excludes other threads at any nesting depth: the counter wraps around, and the lock looks free
  (`ReentrantLock.OverflowHappens`). It excludes as long as no thread nests deeper than the counter can count
  (`ReentrantLock.MutualExclusion`).
- The FastForward queue and the bag carry any value: both accept the sentinel and lose it (`BagTheorems.SentinelIsLost`).
  In the queue it blocks all that comes after it (`FastForward.SentinelIsLost`). The queue refines a bounded queue as
  long as no producer finds all slots taken with the sentinel as the oldest value (`FastForward.RefinesFifo`), so
  whenever the sentinel is never enqueued (`FastForward.CleanRuns`); when one does, its value overtakes all others
  (`FastForward.OverrunOvertakes`).

## Model

`exp2Ceil` and `exponent2` (cds/numtraits.h, lines 72-111) and `retirePtr` and `try_liberate` of the pass-the-buck
collector (cds/gc/ptb/ptb.h, lines 775-796) are cited by the places that use them.

| member | source | states |
|---|---|---|
| BitScan.Msb32 | cds-0.8.0/cds/details/bitop_generic.h:40-67 | the narrowing finds the number of binary digits of every 32-bit word, 0 for 0 |
| BitScan.Msb64 | cds-0.8.0/cds/details/bitop_generic.h:78-84 | the same for 64-bit words, by halves |
| BitScan.ParentOf | cds-0.8.0/cds/map/split_ordered_list.h:1238-1242 | unsetting the most significant bit yields the parent bucket, which has a smaller number |
| BitReversal.Rbo32Reverses | cds-0.8.0/cds/details/bitop_generic.h:161-173 | the five mask-and-shift swaps reverse all 32 digits |
| BitReversal.Rbo64IsReversal | cds-0.8.0/cds/details/bitop_generic.h:177-181 | exchanging two reversed halves reverses all 64 digits: the word's value is the mathematical reversal |
| BitReversal.RegularWordIsKey | cds-0.8.0/cds/map/split_ordered_list.h:1215-1220 | the word computed for an item is the odd key of the split order |
| BitReversal.DummyWordIsKey | cds-0.8.0/cds/map/split_ordered_list.h:1223-1228 | the word computed for a bucket is the even key of the split order |
| SplitOrder.BucketSegment | cds-0.8.0/cds/map/split_ordered_list.h:1215-1235 | with 2^k buckets, the items of bucket b are exactly those whose keys lie in one segment that starts at b's dummy |
| SplitOrder.SegmentsDisjoint | cds-0.8.0/cds/map/split_ordered_list.h:1223-1235 | no other bucket's dummy lies in that segment |
| SplitOrder.ChildDummy | cds-0.8.0/cds/map/split_ordered_list.h:1223-1242 | the dummy of b + 2^k lies in the middle of b's segment |
| SplitOrder.SplitSegment | cds-0.8.0/cds/map/split_ordered_list.h:1215-1242 | it separates exactly the items that stay with b from those that move to b + 2^k when the table doubles |
| SplitOrder.DummyBelowRegular | cds-0.8.0/cds/map/split_ordered_list.h:1215-1235 | the dummy of a hash's bucket precedes the item strictly, for every bucket count |
| SplitOrder.ParentBelowChild | cds-0.8.0/cds/map/split_ordered_list.h:1238-1261 | a parent's dummy precedes its child's strictly |
| SplitOrder.DummyKeyInjective | cds-0.8.0/cds/map/split_ordered_list.h:1223-1228 | buckets narrower than the hash word have different dummies |
| SplitOrder.RegularKeyCollision | cds-0.8.0/cds/map/split_ordered_list.h:1215-1220 | two hashes share an item key exactly when they agree but for the top bit |
| SplitOrder.ParentClearsOneBit | cds-0.8.0/cds/map/split_ordered_list.h:1238-1242 | each climb to the parent removes one set bit |
| SplitListInvariant.CompareOrders | cds-0.8.0/cds/map/split_ordered_list.h:760-771 | the comparator is a total order in which only equal keys compare as 0 |
| SplitListProof.HeadBelowTarget | cds-0.8.0/cds/map/split_ordered_list.h:994-1088 | a search starts strictly below what it looks for, also with a stale bucket count |
| SplitListProof.KeyIsNew | cds-0.8.0/cds/ordered_list/michael_list_nogc.h:505-541 | a key between two linked neighbours is not in the list |
| SplitListProof.InsertionKeepsList | cds-0.8.0/cds/ordered_list/michael_list_nogc.h:443-453 | the linking swap keeps every node linked to the next greater key |
| SplitListProof.StopsPastHead | cds-0.8.0/cds/ordered_list/michael_list_nogc.h:505-541 | a search never stops at its first node, so its position is never the caller's local head |
| SplitListSteps.StepKeepsInv | cds-0.8.0/cds/ordered_list/michael_list_nogc.h:443-542 | every step of every thread keeps the list sorted, the table correct, and what each thread in the middle of a call relies on |
| SplitListSteps.InitInv | cds-0.8.0/cds/map/split_ordered_list.h:1301-1308 | the map starts with the dummy of bucket 0 linked and in the table |
| SplitListTheorems.NeverStuck | cds-0.8.0/cds/ordered_list/michael_list_nogc.h:505-541 | in every run, every pointer a thread is about to follow is valid |
| SplitListTheorems.BucketsInRange | cds-0.8.0/cds/map/split_ordered_list.h:1231-1235 | in every run 2^exponent is at most the capacity, all bucket numbers are table indices, and bucket 0 ends every climb |
| SplitListTheorems.CasTargetsTheList | cds-0.8.0/cds/map/split_ordered_list.h:506-514 | in every run, the linking swap acts on a linked node, never on the caller's copy of the bucket head |
| SplitListTheorems.ListSorted | cds-0.8.0/cds/ordered_list/michael_list_nogc.h:443-542 | at every instant, following the pointers from the first dummy visits exactly the linked keys in strictly ascending order |
| SplitListTheorems.ListGrows | cds-0.8.0/cds/ordered_list/michael_list_nogc.h:443-453 | keys stay linked for ever, each to the same node |
| SplitListTheorems.WinAddsItem | cds-0.8.0/cds/ordered_list/michael_list_nogc.h:443-453 | a successful swap adds its item, which was absent, and nothing else |
| SplitListTheorems.OneWinner | cds-0.8.0/cds/ordered_list/michael_list_nogc.h:443-477 | of all the calls that insert one item, at any time and by any thread, exactly one links it |
| SplitListTheorems.PresentHasWinner | cds-0.8.0/cds/ordered_list/michael_list_nogc.h:443-477 | an item that is present was put there by such a call |
| SplitListTheorems.Linearizable | cds-0.8.0/cds/map/split_ordered_list.h:994-1088 | every completed insert, find or ensure answers as a plain set would at one instant within the call, for the operation and item that it was called with, and links nothing else, also with a stale bucket count, during growth and bucket initialization |
| SplitListTheorems.OnePublisher | cds-0.8.0/cds/map/split_ordered_list.h:1261-1266 | a dummy that is linked but not in the table has exactly one thread about to publish it |
| SplitListTheorems.WaitEnds | cds-0.8.0/cds/map/split_ordered_list.h:1268-1287 | the wait loop waits for another thread that is not waiting, and whose next step ends the wait |
| SplitListTheorems.RecursionDepth | cds-0.8.0/cds/map/split_ordered_list.h:1245-1256 | initBucket nests at most as deep as its bucket number has set bits |
| SplitListProgress.RestartFoundChange | cds-0.8.0/cds/ordered_list/michael_list_nogc.h:523-529 | a search starts again only when a pointer it followed is no longer what it read |
| SplitListProgress.RestartBlamesInsertion | cds-0.8.0/cds/ordered_list/michael_list_nogc.h:443-542 | lock-freedom: whenever a search or a failed swap starts again, another thread has linked a node since the search last started |
| SplitListSolo.StepNearer | cds-0.8.0/cds/ordered_list/michael_list_nogc.h:443-542 | every step of a thread that is not disturbed brings its call nearer to the end: climbing, initializing, searching, linking |
| SplitListSolo.SoloEnds | cds-0.8.0/cds/map/split_ordered_list.h:994-1088 | from every reachable state a thread that runs alone completes its call, unless another is one step short of publishing a bucket |
| SplitListGrowth.GrowsWhenCrowded | cds-0.8.0/cds/map/split_ordered_list.h:1290-1297 | the bucket count is doubled only by a thread that counted an item and found more items than the load factor allows for that bucket count, below the capacity |
| SplitListGrowth.LevelRead | cds-0.8.0/cds/map/split_ordered_list.h:1231-1235 | a call works with the bucket of its item for the bucket count at the instant at which it read it |
| SplitListGrowth.CounterExact | cds-0.8.0/cds/map/split_ordered_list.h:1290-1297 | the item counter lags behind the list by exactly the insertions under way; between operations it is the number of items |
| SplitListGrowth.LoadBounded | cds-0.8.0/cds/map/split_ordered_list.h:1290-1297 | when operations do not overlap, there are fewer than (load factor + 1) items per bucket, unless the table is at its capacity |
| BucketTable.Exp2Ceil | cds-0.8.0/cds/map/split_ordered_list.h:225-230 | the exponent of the nearest power of two, the smaller one of two equally near |
| BucketTable.Exponent2 | cds-0.8.0/cds/map/split_ordered_list.h:238-240 | the logarithm of a power of two, and -1 for every other number |
| BucketTable.CalcMetrics | cds-0.8.0/cds/map/split_ordered_list.h:214-241 | the capacity is a power of two, at least two thirds and at most twice what is wanted (2 for less than two), and reaches it exactly when few or many are wanted or the number rounds up; small tables have one segment, in large ones segments are one to four times as long as there are segments |
| BucketTable.LargeTable | cds-0.8.0/cds/map/split_ordered_list.h:229-237 | above 1024 buckets the correction brings the capacity between n and 2n |
| BucketTable.TooFewBuckets | cds-0.8.0/cds/map/split_ordered_list.h:225-228 | five buckets wanted, four given, for every word of four bits or more |
| BucketTable.AddressBijective | cds-0.8.0/cds/map/split_ordered_list.h:300-309 | shift and mask map the buckets one to one onto the places of the segments |
| BucketTable.DynamicBucketTable.constructor | cds-0.8.0/cds/map/split_ordered_list.h:189-195 | the default table is empty, with the default capacity, segments and load factor |
| BucketTable.DynamicBucketTable.Sized | cds-0.8.0/cds/map/split_ordered_list.h:279-286 | a table laid out for a load is empty, and has the capacity and the segments that calcMetrics gives |
| BucketTable.DynamicBucketTable.GetBucket | cds-0.8.0/cds/map/split_ordered_list.h:300-317 | the head stored for the bucket, or none, also when its segment does not exist yet |
| BucketTable.DynamicBucketTable.SetBucket | cds-0.8.0/cds/map/split_ordered_list.h:320-333 | by one thread: the bucket's head is set, whether or not its segment had to be made, and no other bucket changes |
| SegmentMachine.StepKeepsInv | cds-0.8.0/cds/map/split_ordered_list.h:300-333 | with any number of threads, every access keeps the table's pointers valid and different, and a segment that is not linked yet unknown to all but its maker |
| SegmentMachine.InvEnabled | cds-0.8.0/cds/map/split_ordered_list.h:300-333 | every pointer that a thread is about to follow is valid, also when another thread made the segment first |
| SegmentMachine.StepHeads | cds-0.8.0/cds/map/split_ordered_list.h:320-333 | only the store of a head changes what a bucket holds, not the making, linking or destroying of segments |
| SegmentMachine.HoldsLastStored | cds-0.8.0/cds/map/split_ordered_list.h:320-333 | no head is lost: in every run each bucket holds the head stored last, whichever threads race for its segment |
| SegmentMachine.GetsLastStored | cds-0.8.0/cds/map/split_ordered_list.h:300-317 | getBucket's two loads obtain what the bucket holds at the second one, or none at the first |
| SegmentMachine.SegmentsStay | cds-0.8.0/cds/map/split_ordered_list.h:325-332 | a segment once linked stays in its place |
| SegmentMachine.CallStores | cds-0.8.0/cds/map/split_ordered_list.h:320-333 | a call of setBucket returns by storing its own head in its own bucket, and stores nothing else; getBucket stores nothing |
| SegmentMachine.GetAnswers | cds-0.8.0/cds/map/split_ordered_list.h:314-317 | a call of getBucket returns what the bucket that it was called for held at its last read |
| SegmentMachine.CallsEnd | cds-0.8.0/cds/map/split_ordered_list.h:300-333 | every call ends after at most four steps of its own |
| HazardScan.ScansAgree | cds-0.8.0/src/hzp_gc.cpp:167-270 | run on two arrays with the same pointers, the two scans free the same ones and keep the same ones |
| HazardScan.CollectHazards | cds-0.8.0/src/hzp_gc.cpp:175-186 | the list holds exactly the non-null values of all slots of all records |
| HazardScan.ClassicScan | cds-0.8.0/src/hzp_gc.cpp:167-211 | exactly the guarded retired pointers remain in the array and exactly the others are freed, each once |
| HazardScan.MarksKeepOrder | cds-0.8.0/src/hzp_gc.cpp:234-253 | marking lowest bits keeps the array strictly sorted for the searches that follow |
| HazardScan.MarkGuarded | cds-0.8.0/src/hzp_gc.cpp:243-250 | after a hazard pointer is looked up, exactly the entries guarded so far are marked |
| HazardScan.Compact | cds-0.8.0/src/hzp_gc.cpp:255-269 | moving the marked entries down overwrites none that is still to be read, and restores their addresses |
| HazardScan.InplaceScan | cds-0.8.0/src/hzp_gc.cpp:214-270 | the same outcome as the classic scan for distinct pointers, with the fallback for odd addresses |
| HazardRecords.SurvivorsFit | cds-0.8.0/src/hzp_gc.cpp:203-211 | a scan keeps no more pointers than there are hazard slots |
| HazardRecords.Scan | cds-0.8.0/src/hzp_gc.cpp:167-270 | either scan keeps at most as many pointers as there are hazard slots, and only guarded ones; so it leaves room if the slots are fewer than the array's places |
| HazardRecords.Inherit | cds-0.8.0/src/hzp_gc.cpp:296-311 | every pointer of an abandoned array moves once to the helper's array or is freed; a push meets a full array only when that holds nothing but guarded pointers |
| HazardRecords.HelpScan | cds-0.8.0/src/hzp_gc.cpp:272-316 | exactly the obtainable records are emptied and released; all their pointers end up once in the helper's array or freed, and only unguarded ones are freed; an assertion fails only with the helper's array full of guarded pointers, never when there are fewer hazard slots than places |
| HazardRecords.ScanAndHelp | cds-0.8.0/cds/gc/hzp/hzp.h:478-487 | after retirePtr's scan and help the books balance, and there is room again unless the array is full of guarded pointers |
| HazardRecords.RecordList.Allocate | cds-0.8.0/src/hzp_gc.cpp:115-142 | a record that nobody owned, or a new one at the head when none can be had, with the configured slots, all clear, and an empty array of the configured capacity; no other record changes |
| HazardRecords.RecordList.Retire | cds-0.8.0/src/hzp_gc.cpp:144-153 | all slots are cleared, the record has no owner, and its retired pointers stay |
| HazardMachine.StepKeepsInv | cds-0.8.0/src/hzp_gc.cpp:115-211 | every step of readers, writers, scanners and helpers keeps: guarded pointers are allocated, and lie ahead of every scan that could free them or have been met by it |
| HazardMachine.RecheckGuards | cds-0.8.0/cds/ordered_list/michael_list_hzp.h:85-90 | a published pointer that is found linked when read again is guarded from then on |
| HazardMachine.GuardPersists | cds-0.8.0/cds/ordered_list/michael_list_hzp.h:85-90 | no event of any thread ends that but the owner's clearing or reusing of the slot |
| HazardMachine.DecidesUnguarded | cds-0.8.0/src/hzp_gc.cpp:192-211 | a pointer that a scan decides to free is guarded by no slot of any thread |
| HazardMachine.GuardedStaysAllocated | cds-0.8.0/src/hzp_gc.cpp:115-211 | in every run, from a successful second look until the slot is cleared or reused, the node is not freed, although scans read slot by slot while records are pushed on the list head |
| HazardMachine.ReadsAllocated | cds-0.8.0/cds/ordered_list/michael_list_hzp.h:85-90 | a reader follows only links of nodes that are not freed |
| HazardMachine.GetAndGuard | cds-0.8.0/cds/ordered_list/michael_list_hzp.h:85-90 | what is published is what the cell held at the load, and it is guarded exactly when it is no NULL and the cell still holds it at the second look |
| HazardMachine.UnpostedIsFreed | cds-0.8.0/src/hzp_gc.cpp:167-211 | a scan frees what it decides about unless some slot held it at an instant of the scan |
| HazardMachine.ScanOutcome | cds-0.8.0/src/hzp_gc.cpp:192-211 | when a scan ends, exactly those of the retired pointers remain that it had found in slots |
| HazardMachine.CallsEnd | cds-0.8.0/src/hzp_gc.cpp:167-211 | in every run a scan, and a round of getAndGuard, has a step to take until it ends, each step brings it nearer, and nobody sets it back, whatever records are pushed meanwhile |
| PassTheBuck.GarbageCollector.TrapFound | cds-0.8.0/src/ptb_gc.cpp:164-181 | a posted pointer of the set is trapped, and the one trapped before returns to the set or the buffer |
| PassTheBuck.GarbageCollector.Reconsider | cds-0.8.0/src/ptb_gc.cpp:182-202 | a trapped pointer returns to the set unless this guard or one examined before posts it |
| PassTheBuck.GarbageCollector.Examine | cds-0.8.0/src/ptb_gc.cpp:156-206 | one turn of the loop keeps every pending pointer in one place, and the set free of posted pointers |
| PassTheBuck.GarbageCollector.LiberateSet | cds-0.8.0/src/ptb_gc.cpp:148-207 | the loop over all guards keeps that for all the values they post |
| PassTheBuck.GarbageCollector.Liberate | cds-0.8.0/src/ptb_gc.cpp:120-146 | exactly the pending pointers that no guard posts are freed; every other one is once in a hand-off slot or the buffer, and is posted |
| PassTheBuck.FreesUnposted | cds-0.8.0/src/ptb_gc.cpp:148-207 | the loop's invariant amounts to the set difference, and no more survive than values are posted |
| PassTheBuck.PostedAtMostGuards | cds-0.8.0/src/ptb_gc.cpp:156-206 | there are at most as many posted values as guards |
| PassTheBuck.GarbageCollector.Retire | cds-0.8.0/src/ptb_gc.cpp:120-135 | from the threshold on, and only then, everything pending that no guard posts is freed; below it the pointer joins the buffer; the pending pointers stay distinct and none is lost |
| PassTheBuckMachine.StepKeepsInv | cds-0.8.0/src/ptb_gc.cpp:120-207 | while guards post, read again and move on, every step keeps: a protected pointer is posted and allocated; one in the set to free is protected by unexamined guards only; hand-off slots and pending pointers agree |
| PassTheBuckMachine.RecheckProtects | cds-0.8.0/cds/ordered_list/michael_list_ptb.h:82-87 | a posted pointer that is found linked when read again is protected from then on |
| PassTheBuckMachine.ProtectionPersists | cds-0.8.0/cds/ordered_list/michael_list_ptb.h:82-87 | nothing ends that but the guard's clearing or posting of another pointer |
| PassTheBuckMachine.FreesUnprotected | cds-0.8.0/src/ptb_gc.cpp:209-238 | no guard protects a pointer that is being freed |
| PassTheBuckMachine.PostedStaysAllocated | cds-0.8.0/src/ptb_gc.cpp:120-207 | in every run, from a successful second look until the guard moves on, the node is not freed, however often liberate runs and through whatever hand-off slots it goes |
| PassTheBuckMachine.GetAndGuard | cds-0.8.0/cds/ordered_list/michael_list_ptb.h:82-87 | what is posted is what the cell held at the load, and it is protected exactly when it is no NULL and the cell still holds it at the second look |
| PassTheBuckMachine.UnpostedIsFreed | cds-0.8.0/src/ptb_gc.cpp:148-207 | a pending pointer, in the set or in any hand-off slot, that no guard posts while the guards are examined, is freed |
| PassTheBuckMachine.TakesAllFreesAll | cds-0.8.0/src/ptb_gc.cpp:120-146 | liberating starts with the whole buffer and ends with the set empty |
| PassTheBuckMachine.LiberateEnds | cds-0.8.0/src/ptb_gc.cpp:120-207 | the same for liberate, whatever guards are made or post and whatever is retired meanwhile |
| HrcHandshake.StepKeepsInv | cds-0.8.0/src/hrc_gc.cpp:253-277 | unless a reset wipes a claim, the counter is the number of claiming cleaners, and a cleaner that passed both checks has the slot's current node |
| HrcHandshake.HandshakeSafe | cds-0.8.0/src/hrc_gc.cpp:253-277 | in every run without such a reset, no cleaner calls cleanUp on a destroyed node, for any number of cleaners and any reuse of addresses |
| HrcHandshake.PushStores | cds-0.8.0/cds/gc/hrc/details/hrc_retired.h:112-122 | a call of push leaves its node in the slot |
| HrcHandshake.ScanDecides | cds-0.8.0/src/hrc_gc.cpp:253-277 | a scan destroys the slot's node and frees the slot, or restores both, according to whether the claim counter was 0 at an instant within it |
| HrcHandshake.CleansChecked | cds-0.8.0/src/hrc_gc.cpp:349-358 | a cleaner calls cleanUp only after the flag, the flag again under its claim, and the node, in this order |
| HrcHandshake.CallsEnd | cds-0.8.0/src/hrc_gc.cpp:253-277 | push and scan end after at most five steps of the owner, a cleaner's visit to the slot after at most six more of its own |
| HrcHandshake.WipeDooms | cds-0.8.0/cds/gc/hrc/details/hrc_retired.h:50-58 | after any reset that wipes a claim there is a continuation with a violation |
| HrcHandshake.OneCleanerSuffices | cds-0.8.0/cds/gc/hrc/details/hrc_retired.h:112-122 | an explicit run of one owner and one cleaner, from a free slot on, in which push's assertions hold |
| BagInvariant.UnlinkedIsEmpty | cds-0.8.0/cds/bag/sbag_hrc_gccthread.h:448-458 | the block about to be unlinked holds only sentinels |
| BagInvariant.StepKeepsInv | cds-0.8.0/cds/bag/sbag_hrc_gccthread.h:353-492 | every step of the adder and of the remover keeps the chain linked, the marks in place, the scanned part empty and the items conserved |
| BagInvariant.InvEnabled | cds-0.8.0/cds/bag/sbag_hrc_gccthread.h:353-492 | the blocks and slots that the adder's or the remover's next step reads exist |
| BagChain.UnlinkOk | cds-0.8.0/cds/bag/sbag_hrc_gccthread.h:448-458 | linking the predecessor to the successor leaves the chain without the block |
| BagTheorems.Conservation | cds-0.8.0/cds/bag/sbag_hrc_gccthread.h:198-222 | in every run, each value but the sentinel was added as often as it was returned or is in a slot of the list linked from the adder's head |
| BagTheorems.SentinelIsLost | cds-0.8.0/cds/bag/sbag_hrc_gccthread.h:214-218 | adding the sentinel adds an item nowhere, and the sentinel is never returned |
| BagTheorems.UnlinksEmptyBlocks | cds-0.8.0/cds/bag/sbag_hrc_gccthread.h:409-492 | unlinked blocks are empty and not the adder's; the branches for contention, with their failing assertion, are never taken |
| BagTheorems.FalseMeansEmpty | cds-0.8.0/cds/bag/sbag_hrc_gccthread.h:225-249 | when tryRemoveAny returns false, there was an instant within the call at which the bag was empty |
| BagCalls.RemovesItem | cds-0.8.0/cds/bag/sbag_hrc_gccthread.h:353-402 | a tryRemoveAny that succeeds hands out an item, not the sentinel, which left the bag, and nothing else did, at one instant within the call |
| BagCalls.FailureRemovesNothing | cds-0.8.0/cds/bag/sbag_hrc_gccthread.h:225-249 | one that fails hands out nothing |
| BagCalls.AddsItem | cds-0.8.0/cds/bag/sbag_hrc_gccthread.h:198-222 | a call of add returns by putting its own item, and nothing else, in the bag |
| BagCalls.AddEnds | cds-0.8.0/cds/bag/sbag_hrc_gccthread.h:198-222 | add ends after at most five steps of the adder |
| BagEnds.Ends | cds-0.8.0/cds/bag/sbag_hrc_gccthread.h:225-249 | every step of tryRemoveAny brings it nearer to its end and no step of the adder sets it back, unless it has noticed an add and begins its rounds anew |
| BagNotices.NoticesAdd | cds-0.8.0/cds/bag/sbag_hrc_gccthread.h:306-321 | an add to a block since the remover marked it last, or a block made since, is noticed when a later round looks at the block |
| BagNotices.NoticesNothingElse | cds-0.8.0/cds/bag/sbag_hrc_gccthread.h:306-321 | a block without an add since it was marked is not taken for one with |
| BagNotices.NoticedSomewhere | cds-0.8.0/cds/bag/sbag_hrc_gccthread.h:381-384 | rounds begin anew only after a look, in a round behind the first of the same call, at a block whose mark is gone |
| BagSolo.SoloEnds | cds-0.8.0/cds/bag/sbag_hrc_gccthread.h:225-249 | from every reachable state the remover that runs alone completes its call: its rounds begin anew at most once |
| FastForward.RefinesFifo | cds-0.8.0/cds/queue/ffqueue_sentinel.h:53-74 | in every interleaving without an overrun what was dequeued is a prefix of what was enqueued, and at most all Size + 1 slots are in use |
| FastForward.AnswersCorrect | cds-0.8.0/cds/queue/ffqueue_sentinel.h:53-74 | enqueue fails only when all slots are taken; dequeue only when the queue is empty or its oldest value is the sentinel, and it obtains the oldest value otherwise |
| FastForward.CleanRuns | cds-0.8.0/cds/queue/ffqueue_sentinel.h:53-74 | without the sentinel among the values no overrun happens, and dequeue fails only when the queue is empty |
| FastForward.EnqueueAnswers | cds-0.8.0/cds/queue/ffqueue_sentinel.h:53-62 | an enqueue that returns true put in exactly the value it was called with; one that returns false put in nothing and found all slots taken |
| FastForward.DequeueAnswers | cds-0.8.0/cds/queue/ffqueue_sentinel.h:64-74 | a dequeue that returns true hands out, and takes out, exactly the value that was the oldest at an instant within the call; one that returns false takes nothing out |
| FastForward.CallsEnd | cds-0.8.0/cds/queue/ffqueue_sentinel.h:53-74 | both calls end after at most four steps of their own |
| FastForward.SentinelAccepted | cds-0.8.0/cds/queue/ffqueue_sentinel.h:53-62 | in any reachable state with a free slot an enqueued sentinel is reported as stored |
| FastForward.SentinelIsLost | cds-0.8.0/cds/queue/ffqueue_sentinel.h:53-74 | once it is the oldest value, every dequeue reports an empty queue, and nothing comes out whatever lies behind |
| FastForward.OverrunOvertakes | cds-0.8.0/cds/queue/ffqueue_sentinel.h:53-74 | after any overrun by another value, the next dequeue obtains that value before those enqueued earlier |
| CircularFifo.RefinesFifo | cds-0.8.0/cds/queue/csqueue.h:56-86 | in every interleaving what was popped is a prefix of what was pushed, and at most Size values are inside |
| CircularFifo.AnswersCorrect | cds-0.8.0/cds/queue/csqueue.h:56-86 | push fails exactly when Size values are inside, pop exactly when none is, and it returns the oldest one |
| CircularFifo.PushAnswers | cds-0.8.0/cds/queue/csqueue.h:56-70 | a push that returns true put in exactly the value it was called with, when there was room; one that returns false put in nothing, when there was none |
| CircularFifo.PopAnswers | cds-0.8.0/cds/queue/csqueue.h:72-86 | a pop that returns true takes out exactly the value that it hands out; one that returns false takes nothing out, when the queue was empty |
| CircularFifo.CallsEnd | cds-0.8.0/cds/queue/csqueue.h:56-86 | both calls end after at most four steps of their own |
| ReentrantLock.StepKeepsInv | cds-0.8.0/cds/lock/spinlock.h:260-298 | every step short of an overflow keeps the counter equal to the holder's depth and the owner field signed by the holder only |
| ReentrantLock.MutualExclusion | cds-0.8.0/cds/lock/spinlock.h:329-381 | in every run without an overflow at most one thread holds the lock, the counter is its nesting depth, and the owner field names a thread only while that thread holds the lock |
| ReentrantLock.CallsCount | cds-0.8.0/cds/lock/spinlock.h:329-381 | from entry to return, lock goes one level deeper, and tryLock does exactly when it succeeds; unlock succeeds exactly for callers that hold the lock, and then goes one level up |
| ReentrantLock.FailureChangesNothing | cds-0.8.0/cds/lock/spinlock.h:329-356 | no step of a tryLock that fails changes the lock |
| ReentrantLock.TryLockFails | cds-0.8.0/cds/lock/spinlock.h:275-285 | a tryLock with n attempts fails only for a caller that does not hold the lock, and if the lock was taken at n instants within the call |
| ReentrantLock.TryLockSucceeds | cds-0.8.0/cds/lock/spinlock.h:346-356 | it succeeds for the holder, and for anybody, given an attempt, as long as no attempt finds the lock taken |
| ReentrantLock.CallsEnd | cds-0.8.0/cds/lock/spinlock.h:287-381 | every step brings a call nearer to its end, unless lock finds the lock taken |
| ReentrantLock.OverflowBreaks | cds-0.8.0/cds/lock/spinlock.h:264-271 | one level more than the counter can count lets a second thread in |
| ReentrantLock.OverflowHappens | cds-0.8.0/cds/lock/spinlock.h:264-271 | for every width of the counter, calls of lock alone lead there |

## Left out

- Weak memory orders, fences, padding and back-off timing: each atomic access is one step of a sequentially consistent memory.
- Values of map items and the functors applied to them: the map is a set of keys; `emplace` and `get` are look-ups like `find`.
- Map variants with deletion, and the garbage-collected lists: the map is modelled over the insert-only list.
- The machine of the map treats getting and setting a bucket as single steps; that this is justified is stated by SegmentMachine and not built into the map's theorems.
- Overflow of `1 << m_nBucketCountExp2`, an `int` shift, for more than 2^30 buckets: bucket numbers are exact.
- BucketTable.CalcMetrics: exact arithmetic for `nItemCount / nLoadFactor`, where the code rounds in `float`, and sizes below half of the word's range, so that no product overflows.
- The hazard pointer constructor's array capacity: it is the larger of the argument and a constant and does not follow from the numbers of threads and slots. With no more places than hazard slots, an array may stay full after a scan; the model then tells that the next push or help would meet a failing assertion, and nothing about what happens after it.
- HazardScan.InplaceScan: retired pointers are distinct unless one of them is odd (the fallback takes any), as in a program that retires no pointer twice.
- Deleters: a freed pointer is reported, its deleter is not run.
- HazardMachine.StepKeepsInv: one thread per record; a record that changes its owner continues as the same thread with cleared slots.
- Several `liberate` at a time: `try_liberate` holds a lock around it.
- PassTheBuckMachine.StepKeepsInv: a guard that another thread obtains from the free list continues as the same guard; whether the cell that is read belongs to an allocated node is asked in HazardMachine and not here.
- HrcHandshake.HandshakeSafe: one slot with its owner; `HelpScan`, which moves nodes between slots without reading `m_nClaim`, and stages 1 and 2 of the scan, which choose the nodes, are not part of it.
- The bits of `m_notifyAdd` beyond the remover's own, and `1 << (Id % c_nWordSizeBits)`, an `int` shift, for thread numbers from 31 on.
- The bag beyond one adder and one remover, its other variants, and reclamation of unlinked blocks: block addresses are not used again.
- `ReentrantSpinT::changeOwner`, and fairness: nothing says that a thread which waits for the lock ever gets it, nor that tryRemoveAny ends while items are added for ever.
- Statistics, dumps, debug assertions, options and type selection, thread and operating system code, benchmarks, and the size-class tables of the heap: none of them takes part in the protocols above.
