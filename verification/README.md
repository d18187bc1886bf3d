# Verified model of the AirPlay receiver's concurrent and parsing core

This Dafny project models five parts of the repository and proves what they are for. Each part has a specification on
values, theorems about it, and, where the source works step by step, a class or methods with the source's own loops
that are proved to compute the specification.

- **Lock-free stack, block heap and queue** (`TaggedStack`, `LockFreeHeap`, `LockFreeQueue`, `LockFreeHistory`,
  `LockFreeProgress`, `LockFreeTail`). Transition systems in which one action is one shared-memory access of one of
  any number of threads; the retry loops of the source are transitions back to their first load. The double-word
  compare-and-swap form is modelled, with unbounded versions. The queue's machine contains that of its free list, so
  nodes really are reused. Results: linearizability to a FIFO and a LIFO sequence, step by step and call by call, no
  ABA across reuse, conservation and exclusive ownership of blocks, and that a thread left alone finishes what it is
  doing.
- **Binary property lists** (`Bytes`, `Utf`, `UtfFormat`, `PlistTree`, `PlistObjects`, `PlistHash`, `PlistFlat`,
  `PlistBinary`, `PlistFile`, `PlistFormat`, `PlistRebuild`, `PlistCodec`, `PlistWriter`, `PlistEncoder`). The encoder
  hash-conses a tree into a table of objects and writes it; the decoder parses the objects and moves or copies them
  into a tree. Results: the file format byte by byte, both ways; exactly which nodes share an object; and the round
  trip of the codec, down to the links of the rebuilt nodes, with the exact condition under which text survives.
- **Job manager** (`JobQueues`, `JobLaws`, `JobManager`, `JobSystem`, `JobSafety`, `JobTheorems`, `JobHistory`,
  `JobPaths`, `JobUnPause`, `JobShutdown`). Clients and workers interleave between the sections under the manager's
  lock and the steps of waiting on its event. Results: reserved slots, order of starting, freeing and calling back at
  most once, CancelJobs final and always able to return, no stranded job without UnPause, and exactly which uses of
  UnPause never leave a job without a worker.
- **Incremental HTTP request parser** (`HttpRequest`, `HttpChunks`, `HttpLookups`, `HttpParser`, `HttpRoundTrip`,
  `HttpGrammar`). Results: exactly which streams are accepted, refused and waited for, the exact condition under which
  the cutting of the stream into calls does not matter, and that printed requests parse back.
- **Base64 and line wrapping** (`Base64`, `Base64Format`) and the **reader/writer lock** (`SharedSection`).

Jobs and nodes of the source are pointers; here a job is the number under which it was accepted, a tree node is a
position in a sequence of records or, while it is written, its pre-order number, and a block is its address. The
record of what has happened to each job (`fate`, `freed`, `called`, `muted`, `started`, `given` in `JobSystem.State`)
is bookkeeping the source does not have. `malloc`, `new` and thread creation succeed; what they return is a parameter.

Where code and documentation disagree, the model follows the code. The header of `HttpParser` promises a message that
ends with the bytes of Content-Length; the code looks for the two spaces of the request line in everything received so
far, so a request line without them can be accepted or not depending on how the stream is cut
(`HttpChunks.CutsAgreeIff`). CJobManager's UnPause promises to resume a priority; it neither wakes a worker nor starts
one, so a job can be left with nobody to run it; `JobUnPause.NoJobIsAbandonedIff` says exactly when.

## Model

| member | source | states |
|---|---|---|
| `TaggedStack.ChainUnique` | airplay/threads/LockFree.cpp:38-72 | reading the list from `top` along the next pointers is deterministic: two readings of the same memory agree |
| `TaggedStack.ActionEvolves` | airplay/threads/LockFree.cpp:38-72 | what every thread may rely on in the steps of the others: a `top` that still equals an old copy has the same first node with the same successor, however often blocks were popped, overwritten by clients and pushed again (no ABA) |
| `TaggedStack.ActionKeepsInv` | airplay/threads/LockFree.cpp:38-72 | one memory access of any thread keeps the list an acyclic chain of distinct blocks and every block in exactly one place |
| `TaggedStack.HeldBlocksAreStable` | airplay/threads/LockFree.cpp:44 | the plain store at line 44 resets a pointer only: no action but the owner's own write changes a version or a held block |
| `TaggedStack.ActionIsAtomic` | airplay/threads/LockFree.cpp:43-52 | only the cas2 of a push or pop changes the list, by one node at the front; everything else a thread does leaves the abstract stack alone |
| `TaggedStack.RunIsLinearizable` | airplay/threads/LockFree.cpp:38-72 | over every run of any number of threads the memory is one LIFO list; each push and pop takes effect in one step (its successful cas2, or the read of an empty top) and returns what that step found |
| `TaggedStack.PopReturnsUnownedBlock` | airplay/threads/LockFree.cpp:55-72 | the block a pop returns belongs to nobody: not on the list, not held, not in flight elsewhere |
| `TaggedStack.BlocksAreConserved` | airplay/threads/LockFree.cpp:38-72 | at every moment every block is in exactly one of the free list, a client's hands, or one unfinished push or pop |
| `TaggedStack.RunKeepsCount` | airplay/threads/LockFree.cpp:52-70 | `count` is the length of the list up to the increments and decrements still owed by threads inside push and pop |
| `LockFreeHeap.BlockCountRoundsUp` | airplay/threads/LockFree.cpp:105-110 | the rounded size is at least 4096 bytes less the eight of the header and at least what was asked for, in whole blocks, and not a block more |
| `LockFreeHeap.BlocksFillChunk` | airplay/threads/LockFree.cpp:112-127 | a byte lies behind the eight bytes of the chunk header exactly if it is in one of the blocks carved from the chunk |
| `LockFreeHeap.BlocksAreApart` | airplay/threads/LockFree.cpp:121-127 | two blocks of a chunk have no byte in common |
| `LockFreeHeap.NewBlocks` | airplay/threads/LockFree.cpp:102-128 | blocks of a fresh chunk are new, distinct, not NULL and disjoint from all blocks of older chunks |
| `LockFreeHeap.Heap.Push` | airplay/threads/LockFree.cpp:38-53 | sequentially: the node goes to the front, only its own link changes, version and count grow by one |
| `LockFreeHeap.Heap.Pop` | airplay/threads/LockFree.cpp:55-72 | sequentially: NULL exactly of an empty list, and nothing changes; else the front node, which is on the list no more, under the next version |
| `LockFreeHeap.Heap.PushAll` | airplay/threads/LockFree.cpp:121-127 | the loop of lf_heap_grow leaves the blocks on the free list in reverse, in front of what was there |
| `LockFreeHeap.Heap.Grow` | airplay/threads/LockFree.cpp:102-128 | one more chunk whose blocks, all new, are exactly what the free list gains |
| `LockFreeHeap.Heap.Init` | airplay/threads/LockFree.cpp:84-100 | a heap with one chunk, of at least ten blocks and at least the bytes asked for, each block large enough for a list node |
| `LockFreeHeap.Heap.Alloc` | airplay/threads/LockFree.cpp:141-151 | never NULL undisturbed: a block that was free, or one of a chunk carved for it; nothing else leaves the list |
| `LockFreeHeap.Heap.Free` | airplay/threads/LockFree.cpp:153-158 | NULL is ignored; any other block becomes the first of the free list |
| `LockFreeQueue.EqualLinkMeansLastNode` | airplay/threads/LockFree.cpp:187-202 | if a node's link still equals the enqueuer's copy when it tries its cas2, that node is the last one and `tail` points to it, even if it was dequeued, freed and reused meanwhile |
| `LockFreeQueue.QueueRespectsFreeList` | airplay/threads/LockFree.cpp:178-273 | whatever a queue operation does to memory is something the free-list stack allows its clients to do |
| `LockFreeQueue.ActionKeepsQInv` | airplay/threads/LockFree.cpp:178-273 | one memory access of any thread keeps the queue invariant together with that of the free list under it |
| `LockFreeQueue.QActionIsAtomic` | airplay/threads/LockFree.cpp:178-273 | the contents change only at the cas2 of line 202, which appends, and that of line 264, which removes the front |
| `LockFreeQueue.QRunIsLinearizable` | airplay/threads/LockFree.cpp:178-273 | over every run the queue is one FIFO sequence: enqueue appends its value in one step, dequeue removes and returns the front in one step, all other steps leave it as it is |
| `LockFreeQueue.NullLinkMeansEmpty` | airplay/threads/LockFree.cpp:235-246 | while `head` equals the dequeuer's copy and the link it read was null, the queue was empty at that read |
| `LockFreeQueue.EmptyDequeueSawEmptyQueue` | airplay/threads/LockFree.cpp:235-247 | a dequeue that reports an empty queue was inside its call at a moment when the queue was empty |
| `LockFreeHistory.OperationTakesEffect` | airplay/threads/LockFree.cpp:178-273 | over every run, each operation that has its result took effect at one moment since its call, at which a FIFO queue with the contents of that moment goes to the contents behind it and gives that very result, an empty dequeue included; any other effect is the thread's own step |
| `LockFreeHistory.OperationTakesEffectOnce` | airplay/threads/LockFree.cpp:178-273 | of all the steps of one operation, call and return included, at most one changes the contents |
| `LockFreeProgress.SoloCompletionIff` | airplay/threads/LockFree.cpp:141-273 | from every state of every run, wherever all others have stopped, a thread finishes the operation it is in by at most 28 steps of its own (and five for each block it still has to push), exactly if the second pop of lf_heap_alloc does not find the free list empty |
| `LockFreeTail.TailLagsBehindLinker` | airplay/threads/LockFree.cpp:199-223 | in every run tail is on the last node, except while the enqueue that linked it is between its two cas2, the second of which is then bound to succeed unless another thread helps first |
| `LockFreeQueue.LinkVersionsGrow` | airplay/threads/LockFree.cpp:183-202 | the version in a node's link never drops, over dequeue, free, reuse and the plain stores at lines 44 and 183 |
| `LockFreeQueue.StaleLinkFails` | airplay/threads/LockFree.cpp:201-202 | a cas2 prepared against a node that has left the queue since, be it freed, reused or linked again, fails (a node merely linked behind is the case of EqualLinkMeansLastNode) |
| `LockFreeQueue.QueueIsAlwaysWellFormed` | airplay/threads/LockFree.cpp:185-270 | in every reachable state head is in front of tail, tail is the last or last but one linked node, and the next pointer dereferenced at line 258 is not null |
| `LockFreeQueue.QueueConservesBlocks` | airplay/threads/LockFree.cpp:160-273 | every block is at all times in exactly one of the free list, the queue, and one thread's operation |
| `LockFreeQueue.AllocationsAreExclusive` | airplay/threads/LockFree.cpp:141-181 | no two live allocations are the same block |
| `LockFreeQueue.QRunKeepsLen` | airplay/threads/LockFree.cpp:225-271 | `len` is the number of values up to the increments and decrements still owed |
| `LockFreeQueue.QuietLenIsExact` | airplay/threads/LockFree.cpp:225-271 | with no operation under way `len` is the number of values in the queue |
| `Bytes.BigEndianRoundTrip` | airplay/libplist/src/bplist.c:234-243 | a number written most significant byte first reads back, if it fits |
| `Bytes.ReversedWord` | airplay/libplist/src/bplist.c:103-117 | the low bytes of a little-endian word, reversed, are the number most significant byte first |
| `Bytes.NeededBytes` | airplay/libplist/src/bplist.c:260-264 | 1, 2, 3, 4 or 8 bytes, enough for the number |
| `Bytes.UintToHostReads` | airplay/libplist/src/bplist.c:234-243 | all five widths read back what was written |
| `Bytes.ByteConvert` | airplay/libplist/src/bplist.c:103-117 | the swap loop reverses the given bytes in place and touches no others |
| `Bytes.PutNumber` | airplay/libplist/src/bplist.c:969-970 | memcpy and byte_convert together put a number in its place, most significant byte first |
| `PlistFormat.BigEndianBytes` | airplay/libplist/src/bplist.c:103-117 | the bytes of a number, each written out |
| `Utf.UnitBits` | airplay/libplist/src/bplist.c:1071-1082 | the shifts and masks of the decoder are the six-bit digits of the character |
| `Utf.UnitsRoundTrip` | airplay/libplist/src/bplist.c:1057-1099 | plist_utf8_to_utf16 undoes plist_utf16_to_utf8 on every sequence of 16-bit units, lone surrogates and zeros included |
| `Utf.OutputIsShortestForm` | airplay/libplist/src/bplist.c:354-385 | the encoder's output is UTF-8 in shortest form, at most three bytes a character |
| `Utf.Utf8RoundTrip` | airplay/libplist/src/bplist.c:354-385 | the other way round a byte string survives exactly if it is UTF-8 in shortest form of at most three bytes a character (section 3 of RFC 3629) |
| `Utf.PutUnit` | airplay/libplist/src/bplist.c:367-376 | the writes of one turn of the loop |
| `Utf.Utf16ToUtf8` | airplay/libplist/src/bplist.c:354-385 | NULL for no units; else the loop writes exactly the encoding and a zero, inside its 3 * (len + 1) bytes |
| `Utf.ReadSequence` | airplay/libplist/src/bplist.c:1068-1087 | the branch the decoder takes and the unit it makes of one to three bytes |
| `Utf.Utf8ToUtf16` | airplay/libplist/src/bplist.c:1057-1099 | the loop writes exactly the decoded units and a zero, inside its size + 1 units, and stops early only at an invalid byte |
| `UtfFormat.SmallUnitIsWritten` | airplay/libplist/src/bplist.c:372-373 | a unit below 128 is its own byte, in front of what the others become |
| `UtfFormat.PairUnitIsWritten` | airplay/libplist/src/bplist.c:369-371 | one of eight to eleven bits is 110xxxxx 10xxxxxx (section 3 of RFC 3629) |
| `UtfFormat.WideUnitIsWritten` | airplay/libplist/src/bplist.c:365-368 | any other is 1110xxxx 10xxxxxx 10xxxxxx |
| `UtfFormat.FrontIsRead` | airplay/libplist/src/bplist.c:1068-1087 | for any bytes at all, well-formed or not: the unit their front becomes and where reading goes on, and exactly which bytes end it |
| `PlistTree.StoredIsSameIff` | airplay/libplist/src/bplist.c:1176-1189 | a string survives storage exactly if it is UTF-8 in shortest form of at most three bytes a character; ASCII always does |
| `PlistTree.StoredTreeIsSameIff` | airplay/libplist/src/bplist.c:1176-1189 | the same for a whole tree |
| `PlistObjects.SerializeIsAddAll` | airplay/libplist/src/bplist.c:815-845 | the recursive visit adds the nodes of the tree in pre-order, each unless an equal one is in the table; only leaves are ever found there |
| `PlistObjects.FlattenIsClosed` | airplay/libplist/src/bplist.c:836-841 | every child of a visited node is visited |
| `PlistObjects.ObjectsAreGood` | airplay/libplist/src/bplist.c:815-845 | the table of any well-formed tree answers for every node with an equal object and for every container with that very container; nothing is in it twice; the root is first and pre-order is kept |
| `PlistObjects.SharedObjectsAreEqualLeaves` | airplay/libplist/src/bplist.c:815-845 | two nodes that share an object are equal leaves, and never a key and a string |
| `PlistObjects.SharedIff` | airplay/libplist/src/plist.c:617-676 | two nodes are written as one object exactly if their data are the same and no array or dictionary, and they hash to the same chain |
| `PlistObjects.KidsInOrder` | airplay/libplist/src/bplist.c:836-841 | a node comes right before its first child, and everything below a child before the next one |
| `PlistObjects.ObjectsInOrder` | airplay/libplist/src/bplist.c:815-845 | the objects stand in the file in that order, the root first |
| `PlistHash.BucketIs` | airplay/libplist/src/bplist.c:763-807 | a string or key of two bytes or more is in the chain given by its last byte and the lowest bit of the one before, an array, a dictionary or data in that of the address |
| `PlistHash.NumbersMeet` | airplay/libplist/src/bplist.c:763-807 | all booleans and all numbers below 2^48 are in chain 0 |
| `PlistHash.EqualsShareBucket` | airplay/libplist/src/bplist.c:763-807 | nodes with the same number, string or key meet in the same chain (data are hashed by pointer but compared by content) |
| `PlistHash.EqualNodesShareIff` | airplay/libplist/src/bplist.c:815-845 | two nodes are written as one object exactly if they are the same boolean, number, string or key, or the same data that happen to meet in one chain |
| `PlistHash.SharingIsMaximal` | airplay/libplist/src/bplist.c:763-845 | two objects of a file with the same contents are data, arrays or dictionaries |
| `PlistHash.LookupsSucceed` | airplay/libplist/src/bplist.c:963-971 | every lookup of the writer finds an object with the same contents, and for a container itself |
| `PlistFlat.SlotsOfObject` | airplay/libplist/src/bplist.c:942-1021 | child `s` of a container is attached in slot `s`, as a key exactly if it is one |
| `PlistFlat.FlatTableIsForward` | airplay/libplist/src/bplist.c:815-845 | containers stand behind the containers that hold them |
| `PlistFlat.ExpandGivesTree` | airplay/libplist/src/bplist.c:1101-1253 | the flat table stands for the tree it was made from, up to what storage does to strings |
| `PlistFlat.EncodedTableIsTreeLike` | airplay/libplist/src/bplist.c:698-757 | in an encoder's table the root is never attached, no container twice, and no object as a key in one place and not in another |
| `PlistBinary.NumberRoundTrip` | airplay/libplist/src/bplist.c:849-867 | integers and UIDs parse back, in 1, 2, 4 or 8 bytes |
| `PlistBinary.MarkerRoundTrip` | airplay/libplist/src/bplist.c:899-917 | lengths below fifteen in the marker, others as an integer behind it, parse back |
| `PlistBinary.RefsRoundTrip` | airplay/libplist/src/bplist.c:942-977 | references of 1, 2, 3, 4 or 8 bytes parse back |
| `PlistBinary.StringRoundTrip` | airplay/libplist/src/bplist.c:341-412 | ASCII and 16-bit strings parse back as storage leaves them |
| `PlistBinary.BlobRoundTrip` | airplay/libplist/src/bplist.c:1190-1194 | data parses back although an empty array marker is written behind it (the case has no break) |
| `PlistBinary.DictRoundTrip` | airplay/libplist/src/bplist.c:979-1021 | keys and values parse back from the two halves they are written in |
| `PlistBinary.ObjectRoundTrip` | airplay/libplist/src/bplist.c:1153-1207 | whatever follows an object in the file, it parses back |
| `PlistFormat.WidthIsLeast` | airplay/libplist/src/bplist.c:260-264 | one byte below 2^8, two below 2^16, three below 2^24, four below 2^32, else eight |
| `PlistFormat.NumberIsWritten` | airplay/libplist/src/bplist.c:849-867 | marker plus 0, 1, 2 or 3 and the number in 1, 2, 4 or 8 bytes, each byte written out |
| `PlistFormat.LengthIsWritten` | airplay/libplist/src/bplist.c:899-910 | a length up to 14 is added to the marker; from 15 on the marker plus 15, then 0x10 to 0x13 and the length |
| `PlistFormat.ScalarIsWritten` | airplay/libplist/src/bplist.c:1159-1194 | false is 0x08 and true 0x09; integers from 0x10, UIDs from 0x80, data from 0x40, with the 0xA0 that falls through behind them |
| `PlistFormat.StringIsWritten` | airplay/libplist/src/bplist.c:1176-1189 | strings of bytes below 0x80 from 0x50 as they are, any other from 0x60 in units of two bytes, the high one first |
| `PlistFormat.ContainerIsWritten` | airplay/libplist/src/bplist.c:942-1021 | arrays from 0xA0, dictionaries from 0xD0, keys in front of values |
| `PlistFormat.RefIsWritten` | airplay/libplist/src/bplist.c:962-973 | reference `i` stands big-endian behind `i` others |
| `PlistFormat.NumberIsTaken` | airplay/libplist/src/bplist.c:270-294 | an integer of any marker in any bytes: its value and its length, and nothing exactly if it is cut short or wider than eight |
| `PlistFormat.LengthIsTaken` | airplay/libplist/src/bplist.c:531-539 | the length in the low four bits, or, for 15, the integer behind, which must be marked 0x10 to 0x1F |
| `PlistFormat.BooleanIsTaken` | airplay/libplist/src/bplist.c:492-517 | of the first bytes below 0x10, 0x08 is false, 0x09 true and every other nothing |
| `PlistFormat.IntegerIsTaken` | airplay/libplist/src/bplist.c:519-520 | first bytes 0x10 to 0x1F |
| `PlistFormat.UidIsTaken` | airplay/libplist/src/bplist.c:576-577 | first bytes 0x80 to 0x8F |
| `PlistFormat.DataIsTaken` | airplay/libplist/src/bplist.c:531-540 | first bytes 0x40 to 0x4F: exactly the bytes of the length |
| `PlistFormat.StringIsTaken` | airplay/libplist/src/bplist.c:542-551 | first bytes 0x50 to 0x5F: the bytes up to the first zero |
| `PlistFormat.ZeroEndsString` | airplay/libplist/src/bplist.c:341-352 | and a string with a zero is the text in front of the first one |
| `PlistFormat.UnicodeIsTaken` | airplay/libplist/src/bplist.c:553-562 | first bytes 0x60 to 0x6F: that many units, converted, up to the first zero |
| `PlistFormat.ArrayIsTaken` | airplay/libplist/src/bplist.c:564-574 | first bytes 0x70 to 0x7F and 0xA0 to 0xAF |
| `PlistFormat.DictIsTaken` | airplay/libplist/src/bplist.c:579-590 | first bytes 0xC0 to 0xDF: keys, then as many values |
| `PlistFormat.NothingIsTaken` | airplay/libplist/src/bplist.c:489-592 | all other first bytes and unreadable lengths give nothing |
| `PlistFormat.RefIsRead` | airplay/libplist/src/bplist.c:234-243 | the value of a reference of every width |
| `PlistFile.OffsetIsRead` | airplay/libplist/src/bplist.c:1213-1228 | the offset table leads to where each object starts |
| `PlistFile.PieceInFile` | airplay/libplist/src/bplist.c:1157 | the bytes at an object's offset are that object |
| `PlistFile.PackedFileIsParsed` | airplay/libplist/src/bplist.c:659-685 | header and trailer of a written file lead the decoder to its objects |
| `PlistFile.FileRoundTrip` | airplay/libplist/src/bplist.c:1145-1252 | every written file below 4 GB parses back to the objects it was made from, with root 0 |
| `PlistFormat.HeaderIsWritten` | airplay/libplist/src/bplist.c:1147-1149 | a file starts with the eight characters bplist00, then the objects |
| `PlistFormat.OffsetIsSum` | airplay/libplist/src/bplist.c:1151-1157 | object 0 starts at 8, each other where the one before ends |
| `PlistFormat.FileIsWritten` | airplay/libplist/src/bplist.c:1213-1244 | behind the objects the offsets in the least width, six zeros, the two widths, and count, root 0 and table offset in eight bytes each |
| `PlistFormat.FileIsTakenIff` | airplay/libplist/src/bplist.c:659-696 | a byte string is taken for a property list exactly if header, trailer and every listed object are in order |
| `PlistFormat.TrailerIsTaken` | airplay/libplist/src/bplist.c:666-685 | which bytes of the last 26 are widths, count, root and table offset |
| `PlistFormat.EntriesAreTaken` | airplay/libplist/src/bplist.c:687-696 | object `i` is what stands at the offset in entry `i` of the table |
| `PlistRebuild.Forest.Attach` | airplay/libplist/libcnary/cnary_node.c:81-95 | node_attach: links, depth, count and leaf mark |
| `PlistRebuild.Forest.Copy` | airplay/libplist/libcnary/cnary_node.c:209-223 | a new node with the data of one without children |
| `PlistRebuild.Forest.MarkAsKey` | airplay/libplist/src/bplist.c:716 | the type of a string becomes that of a key, and nothing else changes |
| `PlistRebuild.Forest.AttachOrCopy` | airplay/libplist/src/bplist.c:718-724 | a node that is still a root is moved, any other copied |
| `PlistRebuild.Forest.HangEntries` | airplay/libplist/src/bplist.c:706-736 | the loop over a dictionary's entries attaches key, value, key, value in order |
| `PlistRebuild.Forest.HangItems` | airplay/libplist/src/bplist.c:738-753 | the loop over an array's items attaches them in order |
| `PlistRebuild.Forest.HangTogether` | airplay/libplist/src/bplist.c:698-757 | after the loops every child is the right object or a copy of a leaf, in its place, attached once |
| `PlistRebuild.SlotKeepsBuilt` | airplay/libplist/src/bplist.c:706-753 | one more child keeps all of that; what is attached never has children yet, so only leaves are copied |
| `PlistRebuild.EveryNodeHasOnePlace` | airplay/libplist/libcnary/cnary_node.c:81-95 | every attached node has one parent and one position there; copies have no children; an object stands where a slot names it |
| `PlistRebuild.ObjectIsTree` | airplay/libplist/src/bplist.c:698-757 | every object is the tree it stands for, with parent, depth, count and leaf mark right for every node below |
| `PlistRebuild.BuiltIsTree` | airplay/libplist/src/bplist.c:698-757 | the same for the root: the loops build exactly the tree the parsed table stands for |
| `PlistCodec.TableIsWritable` | airplay/libplist/src/bplist.c:1139 | every reference fits the width chosen for the number of objects |
| `PlistCodec.TableRoundTrip` | airplay/libplist/src/bplist.c:641-761 | the file of a well-formed tree parses to its table, which stands for the tree |
| `PlistCodec.CodecRoundTrip` | airplay/libplist/src/bplist.c:641-761 | plist_from_bin of plist_to_bin is the tree again for every well-formed tree whose file is below 4 GB |
| `PlistCodec.RereadIsSameIff` | airplay/libplist/src/bplist.c:1176-1189 | it is the very same tree exactly if all text is UTF-8 in shortest form of at most three bytes a character and the tree is not a lone key |
| `PlistCodec.ParseNodes` | airplay/libplist/src/bplist.c:687-696 | the parse loop gives the objects at the offsets of the table |
| `PlistCodec.PlistFromBin` | airplay/libplist/src/bplist.c:641-761 | header and trailer checks, the parse loop and the rebuild, ending in the state CodecRoundTrip speaks of |
| `PlistWriter.HashTable.Insert` | airplay/libplist/src/hashtable.c:55-89 | the first equal entry of the key's chain gets the value, else a new entry is put in front; no other chain changes |
| `PlistWriter.HashTable.Lookup` | airplay/libplist/src/hashtable.c:91-106 | the value of the first equal entry of the key's chain |
| `PlistWriter.LookupIsIndexOf` | airplay/libplist/src/hashtable.c:91-106 | for a table filled by the serializer that is the one object equal to the key, with its number |
| `PlistWriter.Serializer.Serialize` | airplay/libplist/src/bplist.c:815-845 | the recursive visit with its hash table produces the objects of the specification and leaves the table storing exactly them |
| `PlistEncoder.WriteInt` | airplay/libplist/src/bplist.c:849-867 | marker and bytes of an integer |
| `PlistEncoder.WriteLength` | airplay/libplist/src/bplist.c:899-910 | marker of an object with a length |
| `PlistEncoder.IsAsciiString` | airplay/libplist/src/bplist.c:1043-1055 | true exactly of byte strings below 0x80 |
| `PlistEncoder.WriteUnicode` | airplay/libplist/src/bplist.c:930-940 | every unit most significant byte first |
| `PlistEncoder.WriteText` | airplay/libplist/src/bplist.c:1176-1189 | ASCII as it is, other text as 16-bit units |
| `PlistEncoder.WriteArray` | airplay/libplist/src/bplist.c:942-977 | the numbers the table gives for the children, in order; none for data |
| `PlistEncoder.WriteDict` | airplay/libplist/src/bplist.c:979-1021 | keys in the first half of the buffer, values in the second |
| `PlistEncoder.WriteNode` | airplay/libplist/src/bplist.c:1159-1206 | the switch over the types, run-through from data to array included |
| `PlistEncoder.WriteObjects` | airplay/libplist/src/bplist.c:1151-1207 | the objects one after the other, and the offset at which each started |
| `PlistEncoder.WriteOffsets` | airplay/libplist/src/bplist.c:1213-1228 | the offset table |
| `PlistEncoder.PlistToBin` | airplay/libplist/src/bplist.c:1101-1253 | exactly the file that CodecRoundTrip reads back |
| `PlistEncoder.WriteAndRead` | airplay/libplist/src/Structure.cpp:63-119 | writing a well-formed tree and reading the file back gives new nodes whose node 0 is the root of that tree, with text as storage leaves it |
| `JobManager.Event.Set` | airplay/threads/Event.cpp:61-71 | the event is signalled |
| `JobManager.Event.BeginWait` | airplay/threads/Event.h:82-83 | a signalled event returns at once and is reset if nobody else waits; otherwise the wait is counted |
| `JobManager.Event.EndWait` | airplay/threads/Event.h:68-83 | the end of a wait, signalled or not: the last one out resets the event |
| `JobManager.JobManager.StartWorkers` | airplay/utils/JobManager.cpp:265-282 | nothing above the limit; a signal if a registered worker is free; else a new worker |
| `JobManager.JobManager.AddJob` | airplay/utils/JobManager.cpp:224-242 | refused with 0 once stopped; else queued last under the next non-zero id, and workers started |
| `JobManager.JobManager.CancelJob` | airplay/utils/JobManager.cpp:244-263 | the first queue that has the id loses the job, which is freed; else a running job loses its callback |
| `JobManager.JobManager.PopJob` | airplay/utils/JobManager.cpp:284-305 | the oldest job of the highest priority that is not paused and below its limit starts |
| `JobManager.JobManager.IsProcessing` | airplay/utils/JobManager.cpp:325-335 | whether a job of that priority is running |
| `JobManager.JobManager.CancelAll` | airplay/utils/JobManager.cpp:194-207 | all queues emptied in order, every running job without callback, no new jobs |
| `JobManager.JobManager.TryNextJob` | airplay/utils/JobManager.cpp:349-373 | one locked section of GetNextJob: a job, or back to waiting, or out of the workers |
| `JobManager.JobManager.RemoveWorker` | airplay/utils/JobManager.cpp:426-433 | the first occurrence of the worker is gone |
| `JobManager.JobManager.CompletedItem` | airplay/utils/JobManager.cpp:395-402 | the item of the job, as it is at that moment |
| `JobManager.JobManager.EraseCompleted` | airplay/utils/JobManager.cpp:417-421 | the first item with that job is gone |
| `JobQueues.NextPriority` | airplay/utils/JobManager.cpp:287-292 | the highest priority a job can be taken from, or none |
| `JobSystem.TryNextIsNextJob` | airplay/utils/JobManager.cpp:349-373 | the system step of a worker does to the manager what GetNextJob does under the lock |
| `JobSafety.PopKeepsSlots` | airplay/utils/JobManager.cpp:292 | a job starts only below its own limit, so it never uses up slots kept for higher priorities |
| `JobSafety.StepKeepsSafe` | airplay/utils/JobManager.cpp:194-433 | every step of every client and worker keeps the whole invariant |
| `JobTheorems.SlotsAreReserved` | airplay/utils/JobManager.cpp:435-439 | in every run at most 3, 4 and 5 running jobs have priority low, up to normal and up to high, and there are at most five workers |
| `JobTheorems.RunningJobsHaveWorkers` | airplay/utils/JobManager.cpp:265-305 | every running job is held by a registered worker, no two by the same |
| `JobTheorems.JobsStartInOrder` | airplay/utils/JobManager.cpp:287-301 | within a priority jobs start in the order they were added, before those still waiting |
| `JobTheorems.JobsAreAccountedFor` | airplay/utils/JobManager.cpp:199-262 | an accepted job is at all times queued, running, about to be freed by its worker, or freed, and freed at most once |
| `JobTheorems.ListenersAreCalledOnce` | airplay/utils/JobManager.cpp:397-405 | a completion callback runs at most once, after the job has left its queue, and never for a job cancelled in time |
| `JobLaws.QueuedTarget` | airplay/utils/JobManager.cpp:246-256 | by ids alone: CancelJob means the first item with the id in the queue of lowest priority that has one |
| `JobLaws.RunningTarget` | airplay/utils/JobManager.cpp:258-263 | else the first running one with it, and nothing exactly if the id is in no queue and not running |
| `JobLaws.CancelQueued` | airplay/utils/JobManager.cpp:246-256 | a queued job leaves its queue and nothing else changes |
| `JobLaws.CancelRunning` | airplay/utils/JobManager.cpp:258-263 | a running one loses its callback and nothing else changes; an unknown id changes nothing |
| `JobLaws.NextIsHighest` | airplay/utils/JobManager.cpp:287-292 | the highest priority that is not paused, has a job, and has fewer than 3, 4 or 5 jobs running |
| `JobLaws.PopTakesFirst` | airplay/utils/JobManager.cpp:294-301 | its first job moves from the front of its queue behind the running ones |
| `JobLaws.PopTakesNothing` | airplay/utils/JobManager.cpp:304 | and with no such priority nothing changes |
| `JobLaws.AddQueuesLast` | airplay/utils/JobManager.cpp:224-242 | a new job goes behind those of its priority, under the next of 1 to 2^32 - 1, then 1 again |
| `JobLaws.AddFindsWorker` | airplay/utils/JobManager.cpp:265-282 | after AddJob, with fewer than 3, 4 or 5 jobs running, there is a new worker, or the event is set for a free one |
| `JobLaws.StoppedAddsNothing` | airplay/utils/JobManager.cpp:228-229 | once stopped nothing is added |
| `JobTheorems.CancelledJobsNeverStart` | airplay/utils/JobManager.cpp:244-256 | in every run a job that CancelJob meets in a queue is freed once, never starts and is never heard of |
| `JobTheorems.CancelledJobsStaySilent` | airplay/utils/JobManager.cpp:258-263 | in every run a job that CancelJob meets running, with the id in no queue, is never heard of if it was still in DoWork |
| `JobHistory.AddGivesId` | airplay/utils/JobManager.cpp:231-241 | in every run the n-th job accepted gets the n-th id and joins the end of its queue with the listener it was given |
| `JobHistory.IdsTellJobsApart` | airplay/utils/JobManager.cpp:231-234 | waiting and running jobs have different ids, none of them 0, unless 2^32 - 1 jobs were accepted from one to the other |
| `JobHistory.ListenersAreTold` | airplay/utils/JobManager.cpp:397-405 | in every run a job that has been freed and was not cancelled has been told to its listener exactly once, if it had one |
| `JobHistory.RightListenerIsTold` | airplay/utils/JobManager.cpp:397-405 | and the listener called is the one AddJob was given |
| `JobHistory.PausedJobsWait` | airplay/utils/JobManager.cpp:307-317 | from a Pause to the next UnPause of its priority no job of that priority starts |
| `JobHistory.MostUrgentStarts` | airplay/utils/JobManager.cpp:284-305 | in every run a worker that looks for a job starts the oldest of the highest priority that may start, and none exactly if there is none |
| `JobHistory.IdleWorkersWait` | airplay/utils/JobManager.cpp:349-373 | a worker that finds none goes back to its wait, or leaves |
| `JobHistory.ClientsMayCall` | airplay/utils/JobManager.cpp:224-317 | AddJob, CancelJob, Pause and UnPause may come in any state, CancelJobs from any client that is not in it |
| `JobHistory.SignalsAreHeard` | airplay/threads/Event.h:68-83 | Pause and UnPause concern one priority only; a wait ends at once exactly if the event is set, and hears whether it was |
| `JobTheorems.CancelJobsIsFinal` | airplay/utils/JobManager.cpp:194-218 | once CancelJobs has returned nothing is queued, running or registered for the rest of the run, no job starts and no callback runs |
| `JobShutdown.WorkerLeaves` | airplay/utils/JobManager.cpp:349-373 | once the manager is stopped, any worker leaves with at most five steps of its own |
| `JobShutdown.CancelJobsCanReturn` | airplay/utils/JobManager.cpp:194-218 | from every state of every run with a client in CancelJobs, at most 27 steps of workers and of that client alone lead to its return |
| `JobTheorems.NoJobIsStranded` | airplay/utils/JobManager.cpp:349-373 | in every run without UnPause, a queue that is not paused has a job only while some job is running, some worker is awake, or the event is set with a worker at its wait |
| `JobTheorems.WaitsAreCounted` | airplay/threads/Event.h:68-83 | in every run numWaits is the number of workers asleep in the event, so it is positive when a wait ends |
| `JobUnPause.StuckIffNoWorkers` | airplay/utils/JobManager.cpp:349-373 | in every safe state no worker can take a step exactly if none is registered |
| `JobUnPause.NoJobIsAbandonedIff` | airplay/utils/JobManager.cpp:313-317 | over every run with any number of UnPauses, no job is ever left waiting in a queue that is not paused with no worker able to take another step, exactly if each UnPause came when its queue was empty or a worker was registered |
| `JobUnPause.WorkerTakesJob` | airplay/utils/JobManager.cpp:349-373 | any registered worker, asleep or busy, starts a waiting job there is a slot for with at most five steps of its own, whether or not it is signalled |
| `JobUnPause.WaitingJobIsTaken` | airplay/utils/JobManager.cpp:313-317 | so in a run whose UnPauses meet that condition there always is a worker that can start such a job all by itself |
| `JobUnPause.UnPauseCanStrand` | airplay/utils/JobManager.cpp:313-317 | a run that abandons no job until its last step, an UnPause, after which a job that is not paused waits and no worker is registered |
| `HttpRequest.TableIsTransition` | airplay/utils/HttpParser.cpp:81-104 | for every state and character the first matching row of the table, or the error state without one, is the transition |
| `HttpParser.HttpParser.FindMove` | airplay/utils/HttpParser.cpp:110-148 | the loop over the table finds that row |
| `HttpParser.HttpParser.ParseChar` | airplay/utils/HttpParser.cpp:106-150 | one character: the buffer rewritten at that place only, indices and state as the table says |
| `HttpParser.HttpParser.ParseHeader` | airplay/utils/HttpParser.cpp:50-163 | the scan in place, from where it was, is the scan of the specification; Content-Length is read from the scanned part |
| `HttpParser.HttpParser.ParseRequestLine` | airplay/utils/HttpParser.cpp:165-180 | the first two spaces of the buffer become zeros, or nothing changes |
| `HttpParser.HttpParser.AddBytes` | airplay/utils/HttpParser.cpp:182-209 | what one call does, error and completion included |
| `HttpParser.HttpParser.GetValue` | airplay/utils/HttpParser.cpp:248-262 | the value behind the first stored key that reads the same, or the empty string |
| `HttpParser.HttpParser.GetQueryString` | airplay/utils/HttpParser.cpp:223-235 | what is behind the first question mark of the URI |
| `HttpParser.HttpParser.GetBody` | airplay/utils/HttpParser.cpp:237-245 | the body up to its first zero, if a length was stated |
| `HttpLookups.LookupInPrefix` | airplay/utils/HttpParser.cpp:248-262 | no lookup depends on what is behind the scanned header |
| `HttpLookups.FeedKeepsKeys` | airplay/utils/HttpParser.cpp:97-142 | every stored key and its value end at zeros the table has put there |
| `HttpChunks.TwoCallsAreOne` | airplay/utils/HttpParser.cpp:182-209 | two calls are one call with both parts, as long as the first leaves the message open |
| `HttpChunks.CutsAgree` | airplay/utils/HttpParser.cpp:182-209 | however a stream is cut into calls, status, URI index, content start and length, header table and rewritten message are those of one call, if the message has two spaces or the stream has not |
| `HttpChunks.CutsAgreeIff` | airplay/utils/HttpParser.cpp:165-209 | and that condition is exact |
| `HttpChunks.CutMatters` | airplay/utils/HttpParser.cpp:165-180 | where it fails, cutting right behind the message turns success into an error |
| `HttpChunks.CutsCanMatter` | airplay/utils/HttpParser.cpp:165-180 | a stream for which it fails |
| `HttpChunks.TwoSpacesInLineSuffice` | airplay/utils/HttpParser.cpp:81-209 | a condition the sender can see to: with two spaces in front of the first carriage return of any stream, cuts never matter |
| `HttpChunks.DoneWithTheLastByte` | airplay/utils/HttpParser.cpp:196-206 | fed byte by byte a message is first reported done with its last byte |
| `HttpLookups.CutsAgreeOnLookups` | airplay/utils/HttpParser.cpp:248-262 | every header lookup has the same answer however the stream is cut |
| `HttpParser.CutsAgreeOnRequestLine` | airplay/utils/HttpParser.cpp:211-221 | and so have method and URI |
| `HttpRoundTrip.ScanRequest` | airplay/utils/HttpParser.cpp:81-159 | what the scan makes of a printed request: content start, content length, stored keys and rewritten bytes |
| `HttpRoundTrip.PrintedRequestParses` | airplay/utils/HttpParser.cpp:182-266 | a printed request gives back method, URI, body, Content-Length and the first value of every lower-cased name as soon as the body is complete, and waits until then |
| `HttpRoundTrip.PrintedChunksParse` | airplay/utils/HttpParser.cpp:182-266 | the same however it is cut into calls: method, URI, content start and length, the body of that length and every lookup |
| `HttpRoundTrip.AtoiOfDecimal` | airplay/utils/HttpParser.cpp:155 | atoi of a decimal number below 2^31, up to which C defines it, is the number |
| `HttpRoundTrip.StatedLengthIsKept` | airplay/utils/HttpParser.cpp:196-206 | a request that states the length of its body, below 2^31, in decimal is done exactly with the last byte of it |
| `HttpGrammar.HeadIff` | airplay/utils/HttpParser.cpp:81-162 | for every stream: the scan ends a head exactly if the stream begins with one, a line without carriage return, headers of name, colon, space, value, line end, and an empty line |
| `HttpGrammar.FaultIff` | airplay/utils/HttpParser.cpp:81-150 | and it fails exactly if the stream has one of the faults of such a head: a carriage return without line feed, or a colon without space |
| `HttpGrammar.MessageStatus` | airplay/utils/HttpParser.cpp:182-209 | for every stream with a head: where the body starts, and Incomplete while the body is shorter than Content-Length, then Done exactly if there are two spaces to take the line apart at |
| `HttpGrammar.OtherStatus` | airplay/utils/HttpParser.cpp:182-209 | every other stream is an error if it has a fault and waited for if not |
| `HttpGrammar.LookupByLetters` | airplay/utils/HttpParser.cpp:248-262 | a lookup gives the value of the first header whose name agrees letter by letter, A to Z taken for a to z, and nothing without one or for a key with capitals |
| `HttpGrammar.ContentLengthByLetters` | airplay/utils/HttpParser.cpp:152-157 | the body length is the number in the first header called content-length in any capitals, or zero |
| `HttpGrammar.AtoiReads` | airplay/utils/HttpParser.cpp:155 | the number read: blanks, sign, digits, whatever is behind them |
| `HttpGrammar.AtoiOfText` | airplay/utils/HttpParser.cpp:155 | and zero for anything else |
| `HttpGrammar.QueryIsBehindMark` | airplay/utils/HttpParser.cpp:223-235 | the query is what is behind the first question mark, or empty |
| `Base64.LetterHasValue` | airplay/libplist/src/base64.cc:24-44 | the decoding table inverts the alphabet and rejects the pad |
| `Base64Format.LetterIsInAlphabet` | airplay/libplist/src/base64.cc:24 | the character for each six bits is that of the alphabet of section 4 of RFC 4648, written out |
| `Base64Format.ValueIff` | airplay/libplist/src/base64.cc:27-44 | each character has its place in that alphabet as value, and -1 exactly if it is not in it |
| `Base64Format.ThreeAreEncoded` | airplay/libplist/src/base64.cc:55-68 | three bytes and what follows: the four characters of their 24 bits, then the rest |
| `Base64Format.EndIsEncoded` | airplay/libplist/src/base64.cc:55-68 | two bytes at the end are three characters and one =, one byte two and two |
| `Base64Format.GroupIsDecoded` | airplay/libplist/src/base64.cc:85-101 | four characters of any kind: the bytes they give and those they leave out |
| `Base64Format.BitsAreDecoded` | airplay/libplist/src/base64.cc:85-101 | four characters of the alphabet give the three bytes of their 24 bits |
| `Base64Format.TokensAreDecoded` | airplay/libplist/src/base64.cc:117-124 | carriage return, line feed, tab and space part a text into tokens that are decoded by themselves |
| `Base64.EncodedLength` | airplay/libplist/src/base64.cc:49-70 | four characters for every three bytes begun |
| `Base64.Base64Encode` | airplay/libplist/src/base64.cc:46-72 | the loop writes exactly the encoding and a zero, inside its allocation |
| `Base64.Base64DecodeBlock` | airplay/libplist/src/base64.cc:74-103 | whole groups of four decode to at most three bytes each; characters from 0x80 on only where char is unsigned, inside the part of the buffer left for them |
| `Base64.NextToken` | airplay/libplist/src/base64.cc:117-122 | strtok: separators skipped, the token ended by a zero, the rest untouched |
| `Base64.Base64Decode` | airplay/libplist/src/base64.cc:105-127 | the token loop writes exactly the decoding and a zero, inside its allocation, for every text, with characters from 0x80 on only where char is unsigned |
| `Base64.RoundTrip` | airplay/libplist/src/base64.cc:46-127 | base64decode of base64encode is the identity (section 4 of RFC 4648) |
| `Base64.BufferFits` | airplay/libplist/src/xplist.cc:73-103 | the wrapped text and its zero fit into the allocation of format_string |
| `Base64.FormatString` | airplay/libplist/src/xplist.cc:73-107 | the loops write exactly the wrapped text and a zero, inside the allocation |
| `Base64Format.FormatIsWrapped` | airplay/libplist/src/xplist.cc:92-104 | where every character of the wrapped text stands: line `row` of `cols` characters at `row * (depth + cols + 1)` behind a line feed and `depth` tabs, the same break once more at the end, and nothing else |
| `Base64.WrappedRoundTripIff` | airplay/libplist/src/xplist.cc:73-107 | wrapped text decodes to the bytes it was made from exactly if the column count is a multiple of four or no line is full, at any depth |
| `SharedSection.SleeperHoldsNothing` | airplay/threads/SharedSection.h:41 | a writer that goes to sleep holds nothing, so waiting releases the section |
| `SharedSection.StepKeepsInv` | airplay/threads/SharedSection.h:41-47 | every step inside an operation keeps the invariant |
| `SharedSection.ReadersAndWritersExclude` | airplay/threads/SharedSection.h:41-47 | while a thread holds the lock exclusively, no other thread holds it in either way, in every run |
| `SharedSection.SharedCountIsExact` | airplay/threads/SharedSection.h:45-47 | sharedCount is the number of shared holds |
| `SharedSection.TryLockSucceedsIff` | airplay/threads/SharedSection.h:42 | in every run try_lock() in a free section succeeds exactly if nobody holds the lock shared, the caller included |
| `SharedSection.LockGrantsIff` | airplay/threads/SharedSection.h:41 | the test in lock(), in every run: it returns, one more hold and the section owned, exactly if there is no shared hold; else it sleeps with the section let go |
| `SharedSection.LockGrants` | airplay/threads/SharedSection.h:41 | lock() from call to return, in every run, whatever the others do: one more exclusive hold of the caller, none of anybody else, no shared hold |
| `SharedSection.SharedCallsCount` | airplay/threads/SharedSection.h:45-47 | lock_shared() from call to return gives the caller one more shared hold, unlock_shared() one fewer |
| `SharedSection.OtherCallsCount` | airplay/threads/SharedSection.h:42-43 | try_lock() one more exclusive hold or nothing, unlock() one fewer, a refused try changes nothing |
| `SharedSection.CallsAreTaken` | airplay/threads/SharedSection.h:41-47 | in every run a call gets into the section exactly if no other thread holds the lock exclusively or is inside, and a try fails exactly otherwise |
| `SharedSection.StepsAreTaken` | airplay/threads/SharedSection.h:41-47 | a thread inside can always go on, a woken writer as soon as no other thread is in |
| `SharedSection.WriterGetsIn` | airplay/threads/SharedSection.h:41 | a sleeping writer has the lock after three steps of its own once nobody holds it |
| `SharedSection.ReaderGetsIn` | airplay/threads/SharedSection.h:45 | a reader has it after the call and two steps once no other thread is in the section |
| `SharedSection.WritersWaitForReaders` | airplay/threads/SharedSection.h:41-47 | a writer that sleeps and has not been notified waits for another thread that holds the lock shared |

## Left out

- The single-word compare-and-swap branches of LockFree.cpp, which have no versions, and wrap-around of versions.
- LockFreeHeap.Heap.Alloc: does not model other threads taking all new blocks between growing and the second pop, in which case the code returns NULL; LockFreeQueue takes the growth by any thread and a successful allocation as steps, and `LockFreeProgress.SoloCompletionIff` says in which states a thread is bound for that NULL.
- The locks around the chunk list in lf_heap_grow, and lf_heap_deinit and lf_queue_deinit.
- Reals and dates in property lists, because of floating-point narrowing.
- UTF-8 characters of four bytes: the converters do not know them (`Utf.Utf8RoundTrip` says what happens to them only in that it excludes them).
- PlistCodec.PlistFromBin: requires a table as an encoder writes it (PlistFlat.TreeLike); hostile and malformed files, for which the code reads outside its buffer or leaks, are not modelled beyond a None where parsing leaves the file.
- PlistRebuild.Forest.Copy: does not model node_copy_deep of a node with children, because the codec never makes one, which is what its precondition proves.
- PlistRebuild: nodes are records in a sequence, so the sibling pointers of a child list are its order.
- byte_array_append and ptr_array_add are modelled as appending to a sequence: their growth of capacity is not part of this model.
- PlistEncoder.PlistToBin: the length it returns is not cut to 32 bits; the round trip asks for a file below 4 GB.
- XML property lists, whose library calls are foreign, and the length that node_to_xml passes to format_string.
- plist_array_set_item and plist_dict_set_item, node_insert and node_detach, which the codec does not use.
- Base64.FormatString: requires a positive column count, since the code divides by it before it asserts anything.
- Base64.Base64DecodeBlock: requires characters below 0x80 where char is signed, as the code would index in front of its table for others.
- Base64.Base64Decode: requires the same of its text.
- HttpRequest.Atoi: does not model overflow of a number with too many digits, which is undefined in C; the result is cut to 32 bits.
- The member `_bodyStart` of HttpParser, which is never used, and the 32-bit width of its indices.
- OnJobProgress, IsProcessing by type, the callbacks' own code and CJobQueue, which needs a job equality the base class does not give.
- Jobs offered to AddJob after CancelJobs are refused and not freed, as in the code; who owns them then is not modelled.
- JobTheorems: ids wrap around and skip 0 as in the code, but jobs are told apart by the order they were accepted in, so nothing is claimed about a CancelJob that meets a reused id except what it does to the job it finds.
- CEventGroup, interruption of waits, thread priorities, and the destructors of workers.
- SharedSection: that a thread which holds the lock shared does not call lock() is a precondition, as its waiting for itself would never end (try_lock() it may call); fairness and termination of waits are not modelled.
- Sockets, Zeroconf and mDNS back ends, AirTunes callbacks, settings, JNI and logging.
