# Models of the oak library and its algorithms

The repository is a small systems library, `oak`, and a set of hand-written algorithms. This
project models its hardest parts in Dafny and proves what they guarantee, for every input, every
run and every interleaving.

- **Channel** (`Channel_*.dfy`): the lock-free ring for several producers and consumers, as a step
  machine with one step per atomic access and a weak exchange that may fail for no reason. The four
  indices are shadowed by *tickets*, the same counters without wrap-around, which no step looks at.
  An exchange compares wrapped indices only, so with several producers or consumers it can succeed
  after the head has gone a whole lap around. A run in which that never happens is *lap-free*. A run
  in which every such exchange finds a free slot, or a published record, is *roomy*. Lap-free runs
  are roomy. Exactly the roomy runs keep a full invariant all along; they refine a bounded FIFO queue
  and are never stuck. A single producer and a single consumer make every run lap-free. Runs that
  are not roomy are still runs of a FIFO queue if the record array is accessed in order: every write
  goes to a released slot and every read finds a published record. Exactly these runs keep a weaker
  invariant, and with one consumer, as in the pipeline, only the writes matter. Concrete runs
  separate the conditions. `ChannelObject` is the class used by one thread at a time.
- **Pipeline** (`Pipeline_*.dfy`): source, parser and sink threads, with `InitRuntimeEnviron` and
  `CreateWorker`, over channels taken as bounded queues.
- **Binary search tree** (`Bst_Shape.dfy`, `Bst.dfy`) and **ring** (`Ring.dfy`): nodes linked in
  place on the heap. Trees are read through zippers: a path to a node and the subtree there.
- **URL** (`Url_*.dfy`): the parser and printer, and for every object whatsoever whether it comes
  back when its printed form is parsed.
- **UTF-8** (`Utf8.dfy`), **varint and ZigZag** (`Codec.dfy`): validator and codecs against
  independent definitions. Bitwise operators are functions on natural numbers (`Bits.dfy`); the few
  shared types are in `Basics.dfy`.
- **Sorting** (`Sorting.dfy`) and **Bloom filter** (`Bloom.dfy`): merge sort against insertion sort,
  the filter against a set of hashes.

Where the code does not do what its form suggests, the model follows the code, a lemma gives an
input on which the expected law fails, and another states exactly when it holds:

- an exchange after a whole lap can succeed on a full channel; its slot is free (`HeadSlotIsFree`),
  but the channel then holds one record too many and looks empty (`LappedClaimOverfills`,
  `StepKeepsInvIff`, `RunKeepsInvIff`), and the next Push overwrites a record nobody has read
  (`OverwriteBreaksOrder`, `StepKeepsWeakIff`, `RunKeepsWeakIff`); a stale head makes `Push` refuse on an empty channel
  (`StalePushRefusesEmptyChannel`, `PushRefusesIff`);
- `Transplant` does not set the parent of the node it links, so after `Delete` the parent links are
  right only if the node was a leaf (`Delete`);
- `OAK_RING_ADD` leaves the first spliced node's prev link in the second ring (`Add`);
- percent decoding shifts the first digit out of the byte (`PercentLosesBlank`,
  `PercentRoundTripIff`), an IPv6 address with a port is printed in a form that the parser refuses
  (`Ipv6PortIsRefused`), and raw fields may run into each other (`RoundTripIff`);
- the UTF-8 validator accepts code points up to 0x11FFFF (`AcceptedIsRfcIff`);
- `SetVarint32` writes 0x7F as the fifth byte (`VarintRoundTripIff`);
- a stopped parser frees a late record as if it were an event (`MistakeIsReachable`, `MistakenIff`),
  and a record pushed to an ended thread is never released (`AllReleasedIff`).

`dafny verify dfyconfig.toml` checks the whole project.

## Model

| member | source | states |
|---|---|---|
| `ChannelMachine.StaysInBounds` | oak/oak/common/channel.h:39-92 | no step of any thread leaves the record array, breaks the asserted index bounds or touches another thread's locals |
| `ChannelMachine.HistoryOnlyObserves` | oak/oak/common/channel.h:39-92 | erasing tickets and histories before or after a step gives the same state: the machine never looks at them |
| `ChannelSlots.SlotInjective` | oak/oak/common/channel.h:44-46 | two tickets less than a lap apart that share a slot are equal |
| `ChannelSlots.SlotAgain` | oak/oak/common/channel.h:75-77 | an index that is advanced d times is back at its slot if and only if d is a multiple of the size |
| `ChannelInvariant.LapFreeHasRoom` | oak/oak/common/channel.h:43-53 | a successful exchange less than a lap after its load finds the head where it was loaded, with a free slot or a published record there |
| `ChannelInvariant.HeadSlotIsFree` | oak/oak/common/channel.h:50-55 | under the invariant the slot that an exchange claims is not that of an unreleased record, lapped or not |
| `ChannelInvariant.StepKeepsInvIff` | oak/oak/common/channel.h:39-92 | any step of any thread keeps the invariant if and only if an exchange that advances a head finds room at that moment |
| `ChannelInvariant.RunKeepsInvIff` | oak/oak/common/channel.h:39-92 | a run of any number of producers and consumers keeps the invariant all along if and only if every exchange of it that advances a head finds room |
| `ChannelInvariant.LapFreeRunHasRoom` | oak/oak/common/channel.h:43-53 | every lap-free run finds room |
| `ChannelInvariant.TicketsAreOwnedOnce` | oak/oak/common/channel.h:50-62 | exactly the unpublished tickets have a producer and exactly the unreleased ones a consumer, one each |
| `ChannelInvariant.RoomyRunsAreSafe` | oak/oak/common/channel.h:39-92 | in every run that finds room, lap-free ones among them, the four tickets are ordered within size - 1 of each other, and the unpublished and unreleased ones are owned exactly once |
| `ChannelInvariant.PublishedRecordsStay` | oak/oak/common/channel.h:55-84 | no step overwrites a published record that is not released; it is what its producer was given |
| `ChannelFifo.RefinesFifo` | oak/oak/common/channel.h:55-84 | every step that finds room is an enqueue at the store of prod_tail_, a dequeue at the winning exchange of cons_head_, or nothing, on a queue of capacity size - 1 |
| `ChannelFifo.RunRefinesFifo` | oak/oak/common/channel.h:39-92 | every run that finds room is a run of that queue |
| `ChannelFifo.NothingLostOrInvented` | oak/oak/common/channel.h:39-92 | in every run that finds room the accepted pointers are the returned ones in order, then those held by consumers, then the queue, at most size - 1 |
| `ChannelFifo.ConsumerGetsProducersPointer` | oak/oak/common/channel.h:68-91 | the consumer of ticket k reads, holds or has returned exactly what the k-th accepted Push was given |
| `ChannelFifo.QuiescentContents` | oak/oak/common/channel.h:62-91 | when no call is in progress every claimed pointer is accepted, and either returned or queued |
| `ChannelFifo.PushRefusesIff` | oak/oak/common/channel.h:43-49 | Push answers false if and only if its head is current and size - 1 slots are unreleased, or its head is stale by whole laps |
| `ChannelFifo.PopRefusesIff` | oak/oak/common/channel.h:71-73 | Pop answers false if and only if its head is current and nothing published is untaken, or its head is stale by whole laps |
| `ChannelAccess.StepKeepsWeakIff` | oak/oak/common/channel.h:55-84 | whatever its exchanges find, any step of any thread keeps the weaker invariant if and only if a write goes to a slot whose last record is released and a read finds its record published |
| `ChannelAccess.RunKeepsWeakIff` | oak/oak/common/channel.h:39-92 | a run of any number of producers and consumers keeps it all along if and only if all its writes and reads are such |
| `ChannelAccess.StepRefinesLate` | oak/oak/common/channel.h:62-90 | every step within it is an enqueue at the store of prod_tail_, a dequeue of the oldest pending pointer at the store of cons_tail_, or no step of a FIFO queue; of capacity c if and only if fewer than c pointers are pending at a publication, and c = size suffices |
| `ChannelAccess.AccessRunIsFifo` | oak/oak/common/channel.h:39-92 | every run whose accesses are in order is a run of that queue with capacity size, and with capacity c, size - 1 for one, if and only if all its publications fit |
| `ChannelAccess.AccessRunKeepsOrder` | oak/oak/common/channel.h:39-92 | from the start of such a run the returned pointers are a prefix of the accepted ones, which are at most size ahead |
| `ChannelAccess.RoomyRunAccesses` | oak/oak/common/channel.h:39-92 | every roomy run accesses the records in order and publishes within capacity size - 1 |
| `ChannelSpsc.SoleProducerClaimsLapFree` | oak/oak/common/channel.h:40-53 | a single producer's exchange always finds the head it loaded, whatever the other threads do |
| `ChannelSpsc.SoleConsumerTakesLapFree` | oak/oak/common/channel.h:68-81 | the same for a single consumer |
| `ChannelSpsc.SpscIsLapFree` | oak/oak/common/channel.h:39-92 | every run with one producer and one consumer is lap-free |
| `ChannelSpsc.SpscRunsAreFifo` | oak/oak/common/channel.h:39-92 | in every such run the popped pointers are a prefix of the accepted ones, Push refuses exactly when size - 1 are unreleased, Pop exactly when nothing is queued |
| `ChannelSpsc.OneConsumerRoomyIff` | oak/oak/common/channel.h:39-92 | a run with one consumer and any number of producers is roomy if and only if every exchange of a producer finds room |
| `ChannelSpsc.OneProducerRoomyIff` | oak/oak/common/channel.h:39-92 | a run with one producer and any number of consumers is roomy if and only if every exchange of a consumer finds a published record |
| `ChannelSpsc.OneConsumerKeepsWeakIff` | oak/oak/common/channel.h:39-92 | with one consumer the weaker invariant is kept all along if and only if every record is written to a released slot |
| `ChannelSpsc.OneProducerKeepsWeakIff` | oak/oak/common/channel.h:39-92 | with one producer if and only if every record is read after it is published |
| `ChannelSpsc.StreamIsFifo` | oak/oak/worker.cc:96-393 | any number of producers and one consumer, as for the streams of parsers and sinks: if all writes go to released slots the run from the start is one of a FIFO queue, in order and at most size ahead |
| `ChannelProgress.OldestProducerMoves` | oak/oak/common/channel.h:58-62 | the producer of the oldest unpublished ticket takes a real step, which lowers the measure |
| `ChannelProgress.OldestConsumerMoves` | oak/oak/common/channel.h:86-90 | the same for the consumer of the oldest unreleased ticket |
| `ChannelProgress.SpinnerWaitsForOldest` | oak/oak/common/channel.h:58-90 | a thread whose step changes nothing is in a wait loop, and another thread with an older ticket can move |
| `ChannelProgress.SomeThreadMoves` | oak/oak/common/channel.h:39-92 | in every state with a call in progress some lap-free step lowers the measure |
| `ChannelProgress.CallsCanComplete` | oak/oak/common/channel.h:39-92 | from every state that satisfies the invariant a lap-free run that starts no call brings all threads to rest |
| `ChannelProgress.RunsCanComplete` | oak/oak/common/channel.h:39-92 | every run from the start that finds room can be continued, starting no call, to one that finds room and leaves all threads at rest; it stays lap-free if it was |
| `ChannelRuns.SoloPush` | oak/oak/common/channel.h:39-64 | with no Push in progress, a Push that runs alone appends its record or refuses, and changes nothing else |
| `ChannelRuns.SoloPop` | oak/oak/common/channel.h:67-92 | with no Pop in progress, a Pop that runs alone takes the oldest record or refuses |
| `ChannelRuns.LappedClaimOverfills` | oak/oak/common/channel.h:50-62 | a run of three threads on a channel of size 2: after a lapped exchange without room three Push calls have succeeded, one pointer came back, and the channel looks empty |
| `ChannelRuns.OverwriteBreaksOrder` | oak/oak/common/channel.h:50-84 | that run goes on: one more Push overwrites a record that nobody has read, and the next Pop returns the later pointer in its place |
| `ChannelRuns.ClaimAheadOfRoom` | oak/oak/common/channel.h:50-90 | from a reachable state a run that is not roomy, because an exchange succeeds on a full channel, but whose accesses are in order, within capacity size - 1: all pointers come back in order |
| `ChannelRuns.StalePushRefusesEmptyChannel` | oak/oak/common/channel.h:40-49 | a run after which Push refuses although the channel is empty |
| `ChannelObject.WindowIsQueue` | oak/oak/common/channel.h:95-98 | under the invariant the records between cons_head_ and prod_tail_, around the end of the array, are the abstract queue |
| `ChannelObject.MaskedDifference` | oak/oak/common/channel.h:96-98 | masking a w-bit difference of two indices with 2^k - 1 gives their distance around a ring of 2^k |
| `ChannelObject.UsedSpaceCountsWindow` | oak/oak/common/channel.h:95-99 | for every size that is a power of two, the masked 32-bit difference is the number of queued records |
| `ChannelObject.Channel.constructor` | oak/oak/common/channel.h:21-31 | a new channel is empty, in its own buffer or in the caller's; one of size 0 has no valid index |
| `ChannelObject.Channel.Push` | oak/oak/common/channel.h:39-64 | undisturbed, Push appends if fewer than size - 1 records are queued and leaves every field as it was if not |
| `ChannelObject.Channel.Pop` | oak/oak/common/channel.h:67-92 | undisturbed, Pop removes and returns the oldest record if there is one |
| `ChannelObject.Channel.UsedSpace` | oak/oak/common/channel.h:95-99 | returns the number of records that are published and not taken, also with calls in progress |
| `ChannelObject.Channel.AvailSpace` | oak/oak/common/channel.h:102-104 | returns how many more records fit |
| `ChannelObject.Channel.Capacity` | oak/oak/common/channel.h:107 | the channel never holds more than the capacity, and between calls Push's full test holds exactly when it holds as many |
| `ChannelObject.SoloCallsMatchObject` | oak/oak/common/channel.h:39-92 | an undisturbed call of the step machine leaves the fields, accepts and returns exactly what the class's Push and Pop do |
| `PipelineMachine.Clamp` | oak/oak/worker.cc:431-447 | every thread count becomes the nearest one from 1 to 32 |
| `PipelineMachine.InitRuntimeEnviron` | oak/oak/worker.cc:430-464 | at first no thread has been started, no channel exists and all offsets are in range |
| `PipelineMachine.SourceKeepsShape` | oak/oak/worker.cc:72-114 | a source step keeps every dispatch offset in range and uses no context outside the arrays |
| `PipelineMachine.ParserKeepsShape` | oak/oak/worker.cc:227-323 | the same for a parser step |
| `PipelineMachine.CreateKeepsShape` | oak/oak/worker.cc:467-530 | after each step of CreateWorker exactly the threads it has come to so far exist |
| `PipelineMachine.CreateStartsOne` | oak/oak/worker.cc:467-530 | a step of CreateWorker starts at most one thread |
| `PipelineMachine.AllThreadsMade` | oak/oak/worker.cc:467-530 | when CreateWorker is done exactly the configured threads exist |
| `PipelineMachine.StaysInShape` | oak/oak/worker.cc:43-530 | the same for every step of every thread |
| `PipelineRecords.SourceShows` | oak/oak/worker.cc:72-114 | a source step reads a record into its hands, moves the one it holds to one parser's channel or to the released ones, or moves none |
| `PipelineRecords.ParserShows` | oak/oak/worker.cc:227-323 | a parser step moves one record from its channel to its hands, from there to one sink's channel or to the released ones, or, when draining, out of its channel; or none |
| `PipelineRecords.SinkShows` | oak/oak/worker.cc:363-396 | a sink step moves one record from its channel to its hands, from there to the released ones, or, when draining, out of its channel; or none |
| `PipelineRecords.StepMovesForward` | oak/oak/worker.cc:72-396 | every step moves at most one record, only to a later stage, and leaves every record in its one place |
| `PipelineRecords.ExactlyOnePlace` | oak/oak/worker.cc:72-396 | a record is in one thread's hands, one channel, or freed, and nowhere else |
| `PipelineSafety.StepStaysOk` | oak/oak/worker.cc:87-299 | every step keeps: running threads have channels, channels stay within capacity, pushes aim at channels that exist, nothing crashes |
| `PipelineSafety.SinkWritesOk` | oak/oak/worker.cc:377-386 | a sink writes a record to its handles one after the other, none twice, and none that another sink has written |
| `PipelineSafety.RunKeepsInv` | oak/oak/worker.cc:43-530 | all of this holds along every run |
| `PipelineSafety.PipelineIsSafe` | oak/oak/worker.cc:72-396 | in every run from InitRuntimeEnviron on: each record read is in exactly one place, once; it is released at most once; it is written at most once to each handle, of at most one sink; offsets are in range at the start of an iteration; no missing channel is used |
| `PipelineSafety.RunningHasChannel` | oak/oak/worker.cc:172-358 | in every run a parser or sink in state THREAD_RUNNING has its channel |
| `PipelineSafety.ChannelsComeFirst` | oak/oak/worker.cc:467-530 | once a source thread exists every configured parser and sink has its channel; once a parser exists, every sink |
| `PipelineSafety.SinkFreesAfterAllWrites` | oak/oak/worker.cc:377-386 | a sink frees a record only after writing it to all its handles |
| `PipelineDrain.DrainedIff` | oak/oak/worker.cc:310-396 | along every run nothing is freed as an event or left in a channel that is not drained any more if and only if nothing is pushed to one |
| `PipelineDrain.MistakenIff` | oak/oak/worker.cc:314-323 | in every run after which no parser is in its second drain loop, a record was freed as an event if and only if one was pushed to a parser in that loop |
| `PipelineDrain.AllReleasedIff` | oak/oak/worker.cc:310-396 | in every run after which all threads have ended, every record read was released if and only if none was pushed to a parser after its first drain loop or to a sink after its drain loop |
| `PipelineDrain.SecondLoopTakesAll` | oak/oak/worker.cc:319-323 | a parser in its second drain loop frees everything in its channel as events, in order, and releases nothing |
| `PipelineMistake.MistakeIsReachable` | oak/oak/worker.cc:314-323 | a run from InitRuntimeEnviron on in which this happens |
| `Bst.Min` | algorithm/binary_search_tree.cc:54-60 | returns the first node in order |
| `Bst.Max` | algorithm/binary_search_tree.cc:62-68 | returns the last node in order |
| `Bst.Successor` | algorithm/binary_search_tree.cc:70-82 | returns the next node in order, null after the last, also among equal values |
| `Bst.Predecessor` | algorithm/binary_search_tree.cc:84-96 | returns the previous node in order, null before the first |
| `Bst.SuccessorPredecessor` | algorithm/binary_search_tree.cc:70-96 | each undoes the other wherever the first one answers |
| `Bst.Search` | algorithm/binary_search_tree.cc:39-52 | in an ordered tree, finds a node with the value if and only if there is one, and otherwise reaches its assertion |
| `Bst.BinarySearchTree.Insert` | algorithm/binary_search_tree.cc:98-120 | on every ordered tree by child links, also after Deletes: it stays one, and the new node comes after all values that are not larger and before the larger ones; parent links are right afterwards if and only if they were before |
| `Bst.BinarySearchTree.Transplant` | algorithm/binary_search_tree.cc:122-132 | the place where u hangs points to v, every other child link is unchanged, and so is v's parent |
| `Bst.BinarySearchTree.DetachMin` | algorithm/binary_search_tree.cc:144-149 | the minimum of the right subtree ends up with the rest of that subtree on its right, in the same order, however deep it was |
| `Bst.BinarySearchTree.Delete` | algorithm/binary_search_tree.cc:134-154 | by child links the tree is still a tree, still ordered, and in order the old one without r; the parent links are right again if and only if r was a leaf |
| `Bst.Build` | algorithm/binary_search_tree.cc:98-120 | any sequence of Inserts from the empty tree gives a linked, ordered tree of exactly those values |
| `Ring.Init` | oak/oak/common/ring.h:22-25 | makes a ring with no members |
| `Ring.Empty` | oak/oak/common/ring.h:27-28 | true if and only if the ring has no members |
| `Ring.Foreach` | oak/oak/common/ring.h:33-34 | visits the members in order, each once, and ends; next links are enough |
| `Ring.InsertHead` | oak/oak/common/ring.h:36-41 | the node comes first; links stay mutual inverses |
| `Ring.InsertTail` | oak/oak/common/ring.h:43-48 | the node comes last; links stay mutual inverses |
| `Ring.Remove` | oak/oak/common/ring.h:50-53 | the other members remain a ring in order; the removed node keeps its links |
| `Ring.Split` | oak/oak/common/ring.h:62-69 | the members before n stay, n and those after it become the second ring |
| `Ring.Move` | oak/oak/common/ring.h:71-78 | all members go to the second head, in order, also when there are none |
| `Ring.Add` | oak/oak/common/ring.h:55-60 | forward, the first ring's members are followed by the second's (by its head if it has none); backward, the result is never a ring |
| `Ring.SplitAdd` | oak/oak/common/ring.h:55-69 | SPLIT followed by ADD restores the forward order |
| `Ring.InsertBeside` | oak/oak/common/ring.h:36-48 | either insertion leaves every disjoint ring as it is |
| `Ring.Transfer` | oak/oak/common/ring.h:43-53 | removing from one ring and appending to another keeps both rings |
| `Ring.InsertRemove` | oak/oak/common/ring.h:36-53 | REMOVE undoes either insertion |
| `UrlText.Trim` | oak/oak/common/url.cc:19-37 | the two loops compute the trimmed text |
| `UrlText.TrimmedSplits` | oak/oak/common/url.cc:19-37 | the trimmed text is the whole text without white space in front and behind, and has none at its ends |
| `UrlText.PercentEncode` | oak/oak/common/url.cc:71-83 | the loop computes the encoding that the lemmas below are about |
| `UrlText.PercentDecode` | oak/oak/common/url.cc:85-107 | the loop computes the decoding that the lemmas below are about, its failure included |
| `UrlText.EncodedIsCoded` | oak/oak/common/url.cc:71-83 | an encoded text holds unreserved characters and percent signs only |
| `UrlText.DecodedEncoded` | oak/oak/common/url.cc:71-107 | decoding an encoded string gives back unreserved characters, and the low four bits of all others |
| `UrlText.PercentRoundTripIff` | oak/oak/common/url.cc:71-107 | decoding undoes encoding if and only if every character is unreserved or below 16 |
| `UrlText.PercentLosesBlank` | oak/oak/common/url.cc:91-95 | a blank comes back as the character 0 |
| `UrlParser.ParseQuery` | oak/oak/common/url.cc:159-188 | the loop computes the dictionary of the pairs, later keys replacing earlier ones, or fails |
| `UrlParser.Url.constructor` | oak/oak/common/url.cc:193 | all fields empty |
| `UrlParser.Url.Parse` | oak/oak/common/url.cc:198-266 | the answer and all nine fields afterwards, also after a failure half way, are the parse of the text into the fields before |
| `UrlParser.Url.Store` | oak/oak/common/url.cc:223-232 | the parts of an authority are decoded into the fields in order, up to the first that fails |
| `UrlParser.Url.ParseTail` | oak/oak/common/url.cc:236-262 | the loop over path, query and fragment ends, and leaves their parse in the fields |
| `UrlParser.Url.Normalize` | oak/oak/common/url.cc:268-328 | prints the fields, with the dictionary in any given order of its keys |
| `UrlParser.Url.NormalizeAuthority` | oak/oak/common/url.cc:276-306 | prints user, host and port, coded before a host and raw before an IPv6 address |
| `UrlImage.ParsedIsReadable` | oak/oak/common/url.cc:198-266 | whatever the text, a successful parse leaves a host, address or path, not both host and address, lower-case scheme and host, fields free of the delimiters that end them, a port of digits and none after an IPv6 address, a path that is empty or starts with a slash |
| `UrlStages.UserSplit` | oak/oak/common/url.cc:124-134 | the first at-sign and colon split user and password as they were joined |
| `UrlStages.HostBound` | oak/oak/common/url.cc:136-154 | whatever the host, no more than it is read as host, and less if it starts with a bracket or holds an at-sign without a user |
| `UrlStages.AuthorityStage` | oak/oak/common/url.cc:117-233 | the printed authority is parsed back into the same fields if and only if: the host is free of escapes, does not start with a bracket and holds an at-sign only behind a user, and user and password survive percent coding; or, before an IPv6 address, all of them are free of escapes; or there is none |
| `UrlStages.QueryRereads` | oak/oak/common/url.cc:159-188 | the printed dictionary is parsed back, key by key |
| `UrlStages.RereadQueryIff` | oak/oak/common/url.cc:159-188 | the same dictionary comes back if and only if all its keys and values survive percent coding |
| `UrlStages.TailStage` | oak/oak/common/url.cc:236-262 | the printed path, query and fragment are parsed back if and only if the path is free of escapes and the others survive percent coding |
| `UrlStages.RestStage` | oak/oak/common/url.cc:217-265 | the text after the scheme is parsed back if and only if its authority and its tail are |
| `UrlRoundTrip.MarkInRest` | oak/oak/common/url.cc:205-215 | without a scheme the printed text holds a scheme's mark if and only if the path does |
| `UrlRoundTrip.RoundTripIff` | oak/oak/common/url.cc:198-328 | for every object and every order of its dictionary, parsing the normal form into a fresh object succeeds with the same fields if and only if the object is in the form ParsedIsReadable describes, its authority and tail pass the stages above, its path holds no scheme's mark if it has no scheme, and its text neither begins nor ends with a blank |
| `UrlRoundTrip.Reparse` | oak/oak/common/url.cc:198-328 | the same for the objects' own Normalize and Parse |
| `UrlRoundTrip.OrdinaryComesBack` | oak/oak/common/url.cc:198-328 | every object over the unreserved characters, with lower-case scheme and host, a port of digits, a path that is empty or starts with a slash, password only with user, user and port only with host, host or path non-empty, comes back |
| `UrlRoundTrip.Ipv6PortIsRefused` | oak/oak/common/url.cc:142-145 | the parser answers false on the text of every object with an IPv6 address and any port without an at-sign that is otherwise in readable form and does not begin with a blank |
| `Utf8.CheckImpl` | utf8.cc:88-123 | accepts exactly the concatenations of shortest-form encodings of non-surrogate values up to 0x11FFFF |
| `Utf8.MaskedLead` | utf8.cc:90-106 | the three masks test for leading bytes from 0xF0, 0xE0 and 0xC0 on |
| `Utf8.GroupEncodes` | utf8.cc:19-86 | what the group tests accept is the encoding of one code point |
| `Utf8.EncodingIsGroup` | utf8.cc:19-86 | the encoding of every code point is accepted as one group, whatever follows |
| `Utf8.WellFormedStep` | utf8.cc:88-123 | a non-empty string is well formed if and only if its first group is accepted and the rest is well formed |
| `Utf8.EncodingIsUnique` | utf8.cc:88-123 | a string has at most one decomposition into code points |
| `Utf8.Concatenation` | utf8.cc:88-123 | after a well-formed string, a string is accepted if and only if it is accepted alone |
| `Utf8.OctetsIsRfc` | utf8.cc:19-86 | the byte-range grammar of section 4 of RFC 3629 describes exactly the encodings, by its section 3, of non-surrogate values up to 0x10FFFF |
| `Utf8.AcceptedIsRfcIff` | utf8.cc:78-82 | a string is in the grammar of section 4 of RFC 3629 if and only if it is accepted and no F4 is followed by a byte from 90 on |
| `Utf8.AcceptsTooLarge` | utf8.cc:78-82 | F4 90 80 80 is accepted and not in the grammar |
| `Codec.EncodeAlternates` | oak/oak/common/codec.h:35-39 | at every width the encoding is 2v for v >= 0 and -2v - 1 below |
| `Codec.DecodeAlternates` | oak/oak/common/codec.h:41-44 | the decoding is u / 2 for even u and -(u / 2) - 1 for odd u, in range |
| `Codec.DecodeEncode` | oak/oak/common/codec.h:35-49 | decoding undoes encoding at every width |
| `Codec.EncodeDecode` | oak/oak/common/codec.h:35-49 | encoding undoes decoding at every width |
| `Codec.SetVarint32` | oak/oak/common/codec.h:77-109 | stores exactly the specified bytes, changes no other, and returns the position after them |
| `Codec.GetVarint32` | oak/oak/common/codec.h:51-75 | returns the value of the bytes up to the first below 0x80, or of five, in 32 bits, and the position after them |
| `Codec.WrittenIsGroups` | oak/oak/common/codec.h:77-109 | below 2^28 the bytes written are the groups of seven bits, the smallest first |
| `Codec.WrittenIsShortest` | oak/oak/common/codec.h:51-109 | no string of bytes that reads as v takes fewer bytes than the one written for v |
| `Codec.ReadWritten` | oak/oak/common/codec.h:51-109 | whatever follows, the reader stops where the writer stopped, with v, or v with the top four bits set from 2^28 on |
| `Codec.VarintRoundTripIff` | oak/oak/common/codec.h:51-109 | v comes back if and only if it is below 2^28 or at least 0xF0000000 |
| `Codec.VarintLosesBits` | oak/oak/common/codec.h:91 | 2^28 comes back as 0xF0000000 |
| `Sorting.Merge` | algorithm/merge_sort.cc:15-34 | the merge of the two runs is written back from the pointer on, nothing else changes |
| `Sorting.MergeSort` | algorithm/merge_sort.cc:37-43 | the n elements become their merge sort, nothing else changes |
| `Sorting.InsertSort` | algorithm/insert_sort.cc:15-24 | the array becomes its insertion sort |
| `Sorting.MergeSortSorts` | algorithm/merge_sort.cc:15-43 | merge sort sorts, with either form of comparison |
| `Sorting.MergeSortKeepsTies` | algorithm/merge_sort.cc:15-43 | with the non-strict comparison equivalent elements keep their order |
| `Sorting.InsertSortSortsStably` | algorithm/insert_sort.cc:15-24 | with the strict comparison insertion sort sorts and keeps the order of equivalent elements |
| `Sorting.StableIsPermutation` | algorithm/merge_sort.cc:15-43 | a stable rearrangement is a permutation |
| `Sorting.SortedIsUnique` | algorithm/merge_sort.cc:15-43 | two sorted sequences with the same order inside each class of ties are equal |
| `Sorting.MergeSortIsInsertSort` | algorithm/merge_sort.cc:37-43 | for every array and total preorder, non-strict merge sort gives the same array, element by element, as strict insertion sort: a stable sorted permutation |
| `Sorting.StrictMergeSortReversesTies` | algorithm/merge_sort.cc:20-26 | with the strict comparison merge sort turns the order of equivalent elements around |
| `Sorting.StrictMergeSortIffPalindromes` | algorithm/merge_sort.cc:15-43 | strict merge sort agrees with insertion sort if and only if every class of ties reads the same in both directions |
| `Bloom.DeltaRotates` | algorithm/bloom/bloom_filter.c:124 | the step between probes is the hash rotated left by 15 bits |
| `Bloom.NextProbe` | algorithm/bloom/bloom_filter.c:125-130 | adding the step in 64 bits goes from probe i to probe i + 1 |
| `Bloom.SetOne` | algorithm/bloom/bloom_filter.c:143 | or-ing one byte sets one bit of the array and no other |
| `Bloom.OnesDetermine` | algorithm/bloom/bloom_filter.c:139-146 | two arrays with the same bits set are the same bytes |
| `Bloom.BloomFilter.constructor` | algorithm/bloom/bloom_filter.c:101-104 | at least 8 bytes and the bits asked for, at most 32 probes, no bit set |
| `Bloom.BloomFilter.LookupHash` | algorithm/bloom/bloom_filter.c:123-132 | true if and only if all probed bits are set |
| `Bloom.BloomFilter.InsertHash` | algorithm/bloom/bloom_filter.c:139-146 | sets exactly the probed bits |
| `Bloom.BloomFilter.LookupAndInsertHash` | algorithm/bloom/bloom_filter.c:153-165 | answers what LookupHash would before the call and leaves what InsertHash would, also when probes of one call meet |
| `Bloom.Replay` | algorithm/bloom/bloom_filter.c:123-165 | after any run the bits are those of the hashes inserted; each lookup is true if and only if its probes are covered by those of the hashes inserted before, so for every inserted one |
| `Bloom.ReplayTwice` | algorithm/bloom/bloom_filter.c:123-165 | each of two runs leaves the bits of the hashes it inserted in a filter of its own; if the sets of hashes are the same so are the bytes, whatever the order and repetitions |

## Left out

- Weak memory ordering, fences, padding and alignment in the channel: steps are sequentially consistent.
- Using a channel of size 0, which the constructor's assertion lets through: it can be made, but has no valid index.
- `ChannelObject.Channel.UsedSpace`: taken at one state, because its two loads are not a snapshot while other threads run.
- The channels between pipeline threads are atomic bounded queues whose Push may fail; the step machine of the channel is not plugged into the pipeline.
- What modules do: Read, Parse, Write, which protocols have a handle, and a module that fails to open; their answers are open choices of the model.
- When a thread is asked to stop: any thread at any time, since nothing in the repository stores that state after the start.
- The struct of a record whose protocol has no handle, which is leaked after its buffers are freed: only the release of buffers is modelled.
- Metrics, alarms and the report channel, tags, locks and the replacement of parser handles at run time.
- `Bst.BinarySearchTree.Delete`: starts from right parent links, so a second Delete after one of an inner node is not covered; the code itself does not support it.
- `Query(key)` of the URL, whose lookup test is inverted, and the plain getters.
- Characters of the URL model are not limited to a byte; white space, letters and case are those of the C locale.
- The floating-point sizing of the Bloom filter: its results enter the constructor as the bits and probes asked for. MurmurHash64A and the functions that hash a buffer first.
- Reading or writing past the end of a buffer in GetVarint32 and SetVarint32: callers provide the bytes.
- Module loading, configuration, Kafka, signals, files, buffers of addons, `any.h`, `stringpiece.h`, and the remaining demos.
