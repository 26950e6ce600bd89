# EiskaltDC++: the hard parts, modelled and proved

EiskaltDC++ is a file-sharing client for the NMDC and ADC protocols. This project models the parts of its core whose
correctness is hard to see from one function at a time, and proves what they promise over all inputs and all runs.
Code that works by changing state is modelled as classes and loops that change state; each method is proved against a
function of the old state, and the lemmas beside it say what that function is worth. `dafny verify dfyconfig.toml`
checks everything.

- **Tree hashes.** `TreeHash` defines the tree hash of THEX (section 2 of draft-jchapweske-thex-02; the recursion is
  the one of section 2.1 of RFC 6962) with the leaf and node hash as a parameter. `MerkleTree` is the streaming binary
  counter that computes it, `TreeStreaming` the result for whole runs with the exact conditions on the cut and the block
  size, `TreeBinding` what a root is worth if the hash has no collisions. `MerkleCheck` is the stream that checks a
  download while it is written, `TreeTransfer` sending a tree and recovering its block size.
- **Connecting to peers.** `Handshake` is the NMDC handshake of two peers over two FIFO channels in any interleaving.
  `DownloadItem` holds the rules for one item of the download connection queue, `DownloadStore` what a round of the timer
  does to all items, `DownloadQueue` the queue itself with its timer, retries, merges and identity switches, and
  `DownloadRuns` whole runs of it. `HubSkip` is the choice of the hub to connect through, and `PeerTimeouts` puts it and
  the queue together.
- **Searches, texts and codes.** `SearchGroups` is the grouping of file extensions in searches (the SEGA section of
  ADC-EXT) for any table of groups, and who gets which search, over the sorted lists of `SearchLists`; `SearchRepeats` is
  what becomes of requests with repetitions, `SearchReceiver` what a receiver makes of a search, and `SearchTable` has the
  table the client uses and the results for it. `NmdcEscape`, `Base32` (section 6 of RFC 4648) and `NaturalCompare` are
  what they are called.
- **Streams, segments and users.** `LineReader` frames a socket's bytes into lines, `SocketWriter` is the socket's task
  queue and send buffer under any interleaving of threads, `Segments` the downloaded part of a file, `OnlineUsers` the
  index of online users over all hubs.

## What the proofs found

Some promises do not hold of the code as it stands. The code is modelled as it is; each of these is stated with its
exact condition where one was proved.

- An empty first update before real data stays in the tree as a leaf of its own (`TreeStreaming.EmptyFirstChunkStays`,
  `TreeStreaming.CutExact`), and finalize yields calcBlocks leaves only for some block sizes
  (`TreeStreaming.LeafCountExact`, exact for every size).
- The 32-bit cast in getHash reads the first leaf again past 2^32 leaves (`MerkleTree.LargeTreeReadsFirstLeaf`, and
  `MerkleTree.ReadExact` for the exact condition).
- The loop that recovers a block size cannot end for an empty list of leaves and a non-empty file
  (`TreeTransfer.LoopEndsExactly`).
- Forcing a running attempt takes its time away, and merging a waiting item into it then gives it that item's older one,
  so that the timer gives it up early: `DownloadRuns.RunEarly` is such a run, and `DownloadItem.MergedTimesOut` says of
  every merge exactly whether it does this. It takes both: without Force no attempt is given up before its full wait is
  over (`DownloadRuns.FullWaitUnlessForced`), nor with it while peers are always recognised by the same classes
  (`DownloadRuns.FullWaitInFixedClasses`), since a class then never has two items to merge (`DownloadRuns.OneItemPerClass`).
- When the last hub of a peer that never answers has timed out, its item is dropped at once only if its source is not known
  by another hub's hint; otherwise it waits with that hint, to be dropped in the next round (`PeerTimeouts.Over`,
  `PeerTimeouts.TimeOuts`).
- The wait for a peer without a slot is to grow, but does not: connecting takes the slot waits back before the peer can refuse
  again (dcpp/ConnectionManagerAssoc.cpp:72). So a peer is called every five minutes without end, and never parked after
  twelve refusals, unless items are merged or it refuses on a connection that is not the item's
  (`DownloadRuns.WaitsNeverGrow`; what would happen otherwise is `DownloadItem.RefusalsPaced`).
- The last line of findBestOnlineUser can only return nothing: every path on which it has seen a viable identity has
  returned before (`HubSkip.PeerConnectHub.FindBestOnlineUser`, dcpp/ClientManagerConnectHub.cpp:117).
- The seventh group of the extension table is not sorted, against the comment above the table
  (`SearchTable.DiscImagesOutOfOrder`, dcpp/AdcHubSearch.cpp:57). Therefore it is never used, whatever is requested
  (`SearchTable.DiscImagesNeverUsed`); the queries are right nevertheless (`SearchTable.UniqueExact`).
- Only a request that names an extension twice can lose it: the query takes it out of the group again. It does exactly if
  that group is used (`SearchTable.SearchExact`; `SearchTable.ApeTwiceIsLost` is such a request).
- When two groups are used, the receiver's set difference runs over lists that are not sorted and can pass over a
  removal: it then finds files of a type that was not asked for (`SearchTable.ApeIsFound` and, for any two of the six
  groups, `SearchTable.LeftOutIsFound`; exactly when, by `SearchTable.SearchReceived`).
- Names that mix durations with other numbers are not ordered transitively. Whichever kinds of numbers are allowed in a set
  of names, the order is transitive on it if and only if any two of these names have numbers of the same kinds in the same
  order, as far as both go (`NaturalCompare.KindsExact`); where they part there is a cycle (`NaturalCompare.MixedCycle`).
- Bytes written to a socket before its opening is queued are never sent, nor is anything after them
  (`SocketWriter.EarlyWriteIsStuck`, `SocketWriter.StuckForever`, `SocketWriter.SentIsWritten`).
- A segment strictly inside a downloaded one, or around one, makes addSegment forget bytes (`Segments.CoverageKept`).

## Model

| member | source | states |
|---|---|---|
| `TreeHash.RootIsTreeOfBase` | dcpp/MerkleTree.h:179-198 | the tree hash of any data, defined over bytes, is the tree over its 1024-byte leaf hashes |
| `TreeHash.TreeOfBlockHashes` | dcpp/MerkleTree.h:84-86 | for every power of two u, the tree over blocks of u base hashes has the same root as the tree over the base hashes: the root does not depend on the block size |
| `TreeHash.BlockHashesCount` | dcpp/MerkleTree.h:84-86 | hashing n base hashes in blocks of u gives ceil(n/u) block hashes, and at least one |
| `TreeHash.SplitUnique` | dcpp/MerkleTree.h:184-187 | the split of a tree of n leaves is the only power of two k with k < n <= 2k |
| `TreeHash.GrowDoubles` | dcpp/MerkleTree.h:184-186 | the doubling loop ends at a power-of-two multiple of its start, the only one below the length whose double is not |
| `TreeHash.BlocksUnique` | dcpp/MerkleTree.h:84-86 | the block count is the only number m of blocks that covers n bytes with none to spare |
| `MerkleTree.Cast32` | dcpp/MerkleTree.h:182 | the cast is the index modulo 2^32: below that range, off by a whole number of turns, and exact for indexes below it |
| `MerkleTree.ReadIsSlice` | dcpp/MerkleTree.h:182 | with at most 2^32 leaves, getHash reads the leaves as they are |
| `MerkleTree.LargeTreeReadsFirstLeaf` | dcpp/MerkleTree.h:182 | past 2^32 leaves the cast wraps and the next index reads the first leaf again |
| `MerkleTree.ReadExact` | dcpp/MerkleTree.h:182 | all trees of n leaves are read as they are if and only if n is at most 2^32 |
| `MerkleTree.GrowIsSplit` | dcpp/MerkleTree.h:184-186 | the doubling loop of getHash stops at the byte position where the tree over the blocks splits |
| `MerkleTree.Halves` | dcpp/MerkleTree.h:187 | the two recursive calls of getHash cover exactly the leaves before and behind the split, block aligned |
| `MerkleTree.StackPush` | dcpp/MerkleTree.h:107-109 | appending a base block keeps the stack a binary counter: sizes are powers of two, falling to the top, and every block is the tree over its part |
| `MerkleTree.StackTopTwo` | dcpp/MerkleTree.h:202-212 | merging two equal blocks on top gives the block that is the tree over both parts |
| `MerkleTree.StackSettled` | dcpp/MerkleTree.h:200-218 | when no two blocks on top are equal, the stack is a strictly falling binary counter again |
| `MerkleTree.MergeStep` | dcpp/MerkleTree.h:204-213 | a merge reaches the leaf size exactly when the stack holds one whole leaf; otherwise it stays below it |
| `MerkleTree.FoldIsTree` | dcpp/MerkleTree.h:123-128 | combining the stack from the top down, as finalize does, gives the tree over everything on it |
| `MerkleTree.FinalLeavesAreBlocks` | dcpp/MerkleTree.h:118-135 | the finished leaves and the last, partial one are the block hashes of the base hashes |
| `MerkleTree.OneMore` | dcpp/MerkleTree.h:200-218 | one more base hash either completes a leaf over the last u base hashes or only lengthens the remainder |
| `MerkleTree.MerkleTree.constructor` | dcpp/MerkleTree.h:50-51 | a tree that starts with given leaves and file size and no blocks |
| `MerkleTree.MerkleTree.Update` | dcpp/MerkleTree.h:93-116 | the whole state after an update: the base hashes of the data are added, empty data only to an empty tree; leaves and stack stay what they must be for the base hashes so far |
| `MerkleTree.MerkleTree.AddPieces` | dcpp/MerkleTree.h:102-114 | the loop over the pieces of an update adds the base hash of every 1024-byte piece in order |
| `MerkleTree.MerkleTree.AddBase` | dcpp/MerkleTree.h:104-112 | one base hash goes to the leaves or through the binary counter |
| `MerkleTree.MerkleTree.ReduceBlocks` | dcpp/MerkleTree.h:200-218 | leaves the stack strict, and emits a leaf exactly when a whole one has come together: the tree over its base hashes |
| `MerkleTree.MerkleTree.EnsureLeaf` | dcpp/MerkleTree.h:119-122 | an untouched tree gets the leaf of empty data, any other stays as it is |
| `MerkleTree.MerkleTree.CombineBlocks` | dcpp/MerkleTree.h:123-129 | at most one block is left, with the fold of the stack as its hash |
| `MerkleTree.MerkleTree.Finalize` | dcpp/MerkleTree.h:118-135 | the leaves are those put in from outside and then one per block of the data; the root is the tree over them |
| `MerkleTree.MerkleTree.CalcRoot` | dcpp/MerkleTree.h:152-154 | the root is the tree over the first calcBlocks leaves as read |
| `MerkleTree.MerkleTree.GetHash` | dcpp/MerkleTree.h:179-189 | for any block-aligned range the recursion computes the tree over the leaves of the range |
| `TreeStreaming.BlockRootsAt` | dcpp/MerkleTree.h:118-135 | reference leaf i is the tree hash of bytes i*size up to the end of block i |
| `TreeStreaming.BlockRootsCount` | dcpp/MerkleTree.h:84-86 | the reference has exactly calcBlocks leaves |
| `TreeStreaming.GroupsAreBlocks` | dcpp/MerkleTree.h:200-218 | grouping base hashes by a power of two comes to the same as hashing blocks of bytes |
| `TreeStreaming.FinalTree` | dcpp/MerkleTree.h:118-135 | for every block size of 1024 times a power of two, or as large as the data: the leaves are the reference leaves, there are calcBlocks of them, and their tree is the tree hash of the data |
| `TreeStreaming.LeafCountExact` | dcpp/MerkleTree.h:84-131 | exactly when finalize yields calcBlocks leaves, for every block size: from 1024 up, for the sizes of FinalTree; below, where cutting by the size and by 1024 gives as many blocks |
| `TreeStreaming.AbsorbAllIsBase` | dcpp/MerkleTree.h:93-116 | any cut into updates whose chunks, except the last, are whole base blocks absorbs the base hashes of the concatenated data |
| `TreeStreaming.EmptyFirstChunkStays` | dcpp/MerkleTree.h:98-100 | an empty first update before real data leaves its own leaf in the tree for good |
| `TreeStreaming.CutExact` | dcpp/MerkleTree.h:88-116 | among aligned cuts, exactly those not starting with an empty chunk before data absorb the base hashes of the data |
| `TreeStreaming.StreamedTree` | dcpp/MerkleTree.h:93-135 | a whole run of aligned updates ends in the reference leaves and the tree hash of the data, whatever the cut and the block size |
| `TreeStreaming.HashChunks` | dcpp/MerkleTree.h:93-135 | the same for the object: construct, update per chunk, finalize gives leaves, root and file size of the data |
| `TreeStreaming.WholeRead` | dcpp/MerkleTree.h:179-189 | up to 2^32 leaves the root that calcRoot computes is the tree over all leaves |
| `TreeBinding.RootBinds` | dcpp/MerkleTree.h:102-113 | two byte sequences with one tree hash are equal, or two of the inputs hashed on the two sides collide |
| `TreeBinding.TreeBinds` | dcpp/MerkleTree.h:191-198 | two lists of leaves of one length with one root are equal, or two inputs collide |
| `TreeBinding.BlocksBind` | dcpp/MerkleTree.h:191-198 | data whose block hashes are a prefix of another's is the beginning of that data up to the end of one of its blocks, or two inputs collide |
| `MerkleCheck.MerkleCheckOutputStream.constructor` | dcpp/MerkleCheckOutputStream.h:28-38 | starts with the expected leaves of the blocks before the start position, none if there are not that many |
| `MerkleCheck.MerkleCheckOutputStream.CommitBytes` | dcpp/MerkleCheckOutputStream.h:57-85 | for any cut of the data: what the tree was fed plus the buffered tail is everything written, and only whole base blocks reach the tree |
| `MerkleCheck.MerkleCheckOutputStream.CommitRest` | dcpp/MerkleCheckOutputStream.h:73-84 | whole base blocks go straight to the tree, the rest, shorter than 1024, into the buffer |
| `MerkleCheck.MerkleCheckOutputStream.FillBuffer` | dcpp/MerkleCheckOutputStream.h:61-71 | the buffer is topped up and, when full, fed and emptied; what is left over leaves it empty |
| `MerkleCheck.MerkleCheckOutputStream.Feed` | dcpp/MerkleCheckOutputStream.h:68-80 | feeding whole base blocks keeps the tree that of the bytes fed, and keeps the leaves checked before |
| `MerkleCheck.MerkleCheckOutputStream.CheckTrees` | dcpp/MerkleCheckOutputStream.h:105-114 | succeeds exactly when the finished leaves are a prefix of the expected ones, and never forgets a checked leaf |
| `MerkleCheck.MerkleCheckOutputStream.Write` | dcpp/MerkleCheckOutputStream.h:87-91 | accepts exactly when every leaf finished so far is the expected one |
| `MerkleCheck.MerkleCheckOutputStream.FinishTree` | dcpp/MerkleCheckOutputStream.h:43-47 | the buffered tail is fed and the tree ends with the leaves of everything written |
| `MerkleCheck.MerkleCheckOutputStream.FeedTail` | dcpp/MerkleCheckOutputStream.h:43-45 | the tail is fed once and the buffer is empty |
| `MerkleCheck.MerkleCheckOutputStream.Flush` | dcpp/MerkleCheckOutputStream.h:42-55 | accepts exactly when the roots agree, if the tree is complete, and otherwise when the leaves are a prefix of the expected ones |
| `MerkleCheck.CheckedCount` | dcpp/MerkleCheckOutputStream.h:28-55 | after flush there is one leaf per block from the beginning of the file to the end of the data |
| `MerkleCheck.FinalLeavesChecked` | dcpp/MerkleCheckOutputStream.h:42-55 | the leaves after flush are the ones taken over and the tree hash of each block written |
| `MerkleCheck.AcceptedPrefix` | dcpp/MerkleCheckOutputStream.h:48-53 | whichever of the two tests let the data through, its leaves are a prefix of the expected ones, or two inputs collide |
| `MerkleCheck.AcceptedIsFile` | dcpp/MerkleCheckOutputStream.h:42-91 | data that passed flush is the very part of the file it claims to be, up to the end of a block or of the file, or two of the inputs hashed collide |
| `MerkleCheck.GenuineAccepted` | dcpp/MerkleCheckOutputStream.h:42-55 | flush lets through every part of the file from the beginning of a block to the end of one or of the file |
| `MerkleCheck.FinishedPrefix` | dcpp/MerkleCheckOutputStream.h:57-114 | the leaves finished so far of the beginning of some data are the first leaves of all of it |
| `MerkleCheck.WrittenFits` | dcpp/MerkleCheckOutputStream.h:87-114 | no write rejects data that goes on as the file does |
| `MerkleCheck.CheckDownload` | dcpp/MerkleCheckOutputStream.h:28-114 | a whole download in any pieces through the object: genuine data gets through every write and flush, and whatever gets through is genuine or two of the inputs hashed collide |
| `TreeTransfer.GetLeafData` | dcpp/MerkleTree.h:156-163 | the buffer is the leaves one after the other |
| `TreeTransfer.LeafDataInjective` | dcpp/MerkleTree.h:156-163 | leaf data determines the leaves, even with an unfinished leaf behind it |
| `TreeTransfer.TreeOutputStream.constructor` | dcpp/QueueManagerDisk.cpp:30-32 | nothing received, nothing buffered |
| `TreeTransfer.TreeOutputStream.Write` | dcpp/QueueManagerDisk.cpp:34-54 | the leaves pushed and the buffered rest are together the bytes received, for any cut |
| `TreeTransfer.Transfer` | dcpp/QueueManagerDisk.cpp:34-54 | the leaf data of any list, cut into any writes, gives back the same list with nothing left over |
| `TreeTransfer.RecoveredFits` | dcpp/DownloadManagerTransfer.cpp:148-150 | the loop ends at a power-of-two multiple of 1024 under which the leaves cover the file |
| `TreeTransfer.LoopEndsExactly` | dcpp/DownloadManagerTransfer.cpp:148-150 | the loop can end if and only if there is a leaf or the file is empty |
| `TreeTransfer.SenderSizeRecovered` | dcpp/DownloadManagerTransfer.cpp:148-151 | two or more leaves give back the block size they were made with |
| `TreeTransfer.RecoveredInRange` | dcpp/DownloadManagerTransfer.cpp:148-152 | for any non-empty leaf list every index getHash uses afterwards is in range |
| `TreeTransfer.EndData` | dcpp/DownloadManagerTransfer.cpp:145-165 | block size, root and verdict after a tree download: valid exactly when the recalculated root is the wanted one |
| `TreeTransfer.SentTreeAccepted` | dcpp/DownloadManagerTransfer.cpp:145-165 | a tree made from the data is accepted: its recalculated root is the tree hash of the data, and its block size is recovered |
| `TreeTransfer.AcceptedLeavesGenuine` | dcpp/DownloadManagerTransfer.cpp:145-165 | whatever leaf list is accepted for the root of a file, the leaves it uses are the hashes of the file's blocks, or two inputs collide |
| `Handshake.UserConnection.constructor` | dcpp/ConnectionManagerAdcHandshake.cpp:68-77 | an outgoing connection before its greeting, an incoming one waiting for the peer's nick |
| `Handshake.HandleKeeps` | dcpp/ConnectionManagerNmdcHandshake.cpp:20-98 | the next message of the wire is the one the state waits for, and handling it keeps announcements, roles and counts in order |
| `Handshake.StepKeeps` | dcpp/ConnectionManagerNmdcHandshake.cpp:20-98 | every step of either peer or channel keeps the invariant |
| `Handshake.RunKeeps` | dcpp/ConnectionManagerNmdcHandshake.cpp:20-98 | the invariant holds over every interleaving and every pair of tie numbers |
| `Handshake.RolesComplement` | dcpp/ConnectionManagerNmdcHandshake.cpp:44-85 | in every run, once both peers are past the direction, exactly one downloads and the other uploads |
| `Handshake.LargerNumberDownloads` | dcpp/ConnectionManagerNmdcHandshake.cpp:59-79 | of two downloaders the one with the larger number stays the downloader |
| `Handshake.ConflictStopsBoth` | dcpp/ConnectionManagerNmdcHandshake.cpp:53-79 | two uploaders, or two downloaders with one number, never get past the direction on either side |
| `Handshake.DirectionDecides` | dcpp/ConnectionManagerNmdcHandshake.cpp:53-85 | either peer hangs up on the other's direction exactly on a conflict, or when it lost the tie while it waits for a slot |
| `Handshake.DeliveryDecides` | dcpp/ConnectionManagerNmdcHandshake.cpp:20-98 | in every run an open peer hangs up on the next message exactly for an unknown nick, a direction that does not suit it, or because nobody takes the connection |
| `Handshake.RunWanted` | dcpp/ConnectionManagerNmdcMyNick.cpp:93-134 | in every run a peer takes the role it wants and announces it |
| `Handshake.WantedDecides` | dcpp/ConnectionManagerNmdcMyNick.cpp:93-134 | in every run a peer announces Download exactly if it wants something of the other; past the direction the one that downloads wants it, and if both do it has the larger number |
| `Handshake.QuietMeansDone` | dcpp/ConnectionManagerNmdcHandshake.cpp:20-98 | no deadlock: when nothing is under way and nobody hung up, both sides have been handed over |
| `Handshake.NothingIgnored` | dcpp/ConnectionManagerNmdcHandshake.cpp:20-98 | no message ever reaches an open peer in a state that would make it ignore the message |
| `Handshake.PeersConnect` | dcpp/ConnectionManagerNmdcHandshake.cpp:20-98 | two peers that know each other, of which one wants something and whose tie can be broken, do connect when everything is delivered |
| `Handshake.RunPeers` | dcpp/ConnectionManagerNmdcHandshake.cpp:20-98 | two connection objects, one that connects and one that accepts, under any interleaving of connecting, deliveries and drops: past the direction their roles are complementary and the one that downloads is the one that wants it, a conflict stops both, and if nothing is under way and nobody hung up both have been handed over |
| `DownloadItem.VisitStarts` | dcpp/ConnectionManagerTimer.cpp:94-152 | exactly when a round starts an attempt: the item is wanted, past its gap and has errors to spare, nothing of the peer is connecting, the round has an attempt to spend on it, and the request goes out; the attempt is then timed and counted from this tick |
| `DownloadItem.VisitDrops` | dcpp/ConnectionManagerTimer.cpp:42-152 | exactly when an item leaves: nobody wants it, or it waits, has waited out its attempt or has no errors to spare, has no other identity to try, and its peer never answered and is out of hubs or of errors |
| `DownloadItem.VisitTimesOut` | dcpp/ConnectionManagerTimer.cpp:94-108 | exactly when a running attempt of a wanted item is given up: its wait is over; an attempt without a time only gets one |
| `DownloadItem.TimeoutRests` | dcpp/ConnectionManagerFailQueue.cpp:44-77 | after a timeout the item leaves exactly if it switches to no other identity and its peer is out of reach; otherwise it waits, free to go on at once, and is parked exactly if it has no errors to spare |
| `DownloadItem.VisitKeepsOk` | dcpp/ConnectionManagerTimer.cpp:42-152 | a visit keeps the attempt budget and the pacing of its item |
| `DownloadItem.MergedTimesOut` | dcpp/ConnectionManagerGetDownload.cpp:31-42 | a merge makes the timer call a running attempt timed out before its full wait is over if and only if the attempt has no time and the last attempt of the item merged into it is that long ago |
| `DownloadItem.MergeKeepsOk` | dcpp/ConnectionManagerGetDownload.cpp:31-42 | a merge keeps the attempt budget and a punctual attempt punctual; it can hurry an attempt only by an older time for one that has none |
| `DownloadItem.JoinedOk` | dcpp/ConnectionManagerGetDownload.cpp:170-179 | taking over an identity or reviving an idle item keeps both, and changes neither what is in use nor what connects |
| `DownloadItem.RestedOk` | dcpp/ConnectionManagerFailQueue.cpp:68-75 | an item going back to waiting after a timeout keeps them |
| `DownloadItem.AppliedKeepsOk` | dcpp/DownloadRetryPolicy.cpp:59-97 | so does every outcome of the retry policy |
| `DownloadItem.AgainAtOnce` | dcpp/DownloadRetryPolicy.cpp:59-97 | after a failure the item may start again at once if and only if the peer had granted a slot and the connection broke between two files |
| `DownloadItem.FailureCosts` | dcpp/DownloadRetryPolicy.cpp:59-97 | a peer without a slot costs a slot wait, one that had served us nothing, a protocol error all attempts at once unless TLS is to be tried otherwise, anything else one error; the twelfth slot wait parks the item, and the sixth error of a peer that has answered |
| `DownloadItem.SlotWaitGrows` | dcpp/PeerConnectFilter.cpp:96-109 | the gap is five minutes for each slot wait, half an hour at most, and fifty seconds without any |
| `DownloadItem.RefusalsPaced` | dcpp/DownloadRetryPolicy.cpp:74-80 | refusals one after the other are paced at 5, 10, ... and then 30 minutes, and exactly the twelfth parks the item |
| `DownloadItem.WhoIsTriedFirst` | dcpp/PeerConnectAttempt.cpp:26-32 | an item is tried first if the peer says it has a free slot and did not queue us |
| `DownloadItem.WhoGoes` | dcpp/ConnectionManagerTimer.cpp:42-86 | whatever is queued for a peer that is unknown, offline, out of reach or without anything to download goes in the round, and with a peer that answered only that does |
| `DownloadItem.StartsInTime` | dcpp/ConnectionManagerTimer.cpp:88-148 | no attempt starts after six errors, nor before fifty seconds, the slot wait, or for a parked item an hour have passed |
| `DownloadItem.StartsAtOnce` | dcpp/ConnectionManagerTimer.cpp:110-148 | a waiting item that need not wait starts if nothing is in the way, and is put off while all our slots are taken |
| `DownloadItem.ParkedStays` | dcpp/ConnectionManagerTimer.cpp:88-92 | a parked item is left as it is for an hour |
| `DownloadItem.ParkedForAnHour` | dcpp/ConnectionManagerFailQueue.cpp:79-91 | and then begins anew |
| `DownloadItem.ForcedAtOnce` | dcpp/ConnectionManagerFailQueue.cpp:79-91 | a forced item waits for nothing any more, parked or not |
| `DownloadItem.NudgedAtOnce` | dcpp/ConnectionManagerTimer.cpp:110-118 | once ports are mapped an idle item that is past its gap may start at once, and nothing else changes |
| `DownloadItem.TimeoutForgets` | dcpp/ConnectionManagerFailQueue.cpp:44-77 | after a timeout the item goes on with the other identity, or with no hint, and has no place in the queue of the peer |
| `DownloadItem.MergedHasBoth` | dcpp/ConnectionManagerGetDownload.cpp:31-42 | a merged item has the larger of each counter and the later time |
| `DownloadItem.JoinedMeans` | dcpp/ConnectionManagerGetDownload.cpp:170-179 | a request sets the identity of a waiting item, fills in a missing hub for any other, and ends a wait for our slots |
| `DownloadStore.RoundStep` | dcpp/ConnectionManagerTimer.cpp:42-152 | one more item visited keeps all that is claimed of a round so far: who is removed, which attempts start and which are over, what becomes of items whose peer has no other, punctuality, and one item per class |
| `DownloadStore.StepApart` | dcpp/ConnectionManagerTimer.cpp:134-151 | a visit starts an attempt only if its peer is not recognised as that of any running attempt |
| `DownloadStore.StepOverInTime` | dcpp/ConnectionManagerTimer.cpp:94-108 | a wanted attempt is given up only if its wait was over when the round began, or it had no time and a waiting item of the peer with a time that old was merged into it in the round |
| `DownloadStore.StepKeepsSingle` | dcpp/ConnectionManagerTimer.cpp:42-152 | with fixed classes and one item per class a visit merges nothing, hurries nothing and keeps one item per class, also when it switches identities |
| `DownloadStore.StrangerVisit` | dcpp/ConnectionManagerTimer.cpp:42-152 | an item whose peer is recognised as nobody else goes through its visit as if it were alone |
| `DownloadStore.JoinedToRules` | dcpp/ConnectionManagerGetDownload.cpp:158-179 | after a request the item found carries the merged state of all idle ones of the peer and, if it waits, the wanted identity; no other idle item of the peer is left, all others are untouched, no attempt starts |
| `DownloadStore.JoinedToKeeps` | dcpp/ConnectionManagerGetDownload.cpp:158-179 | a request keeps attempts punctual and, with fixed classes, one item per class |
| `DownloadQueue.ConnectionManager.UsersAreDistinct` | dcpp/ConnectionManagerGetDownload.cpp:63-67 | in a valid queue no two items hold the same user |
| `DownloadQueue.ConnectionManager.FindDownloadCqi` | dcpp/ConnectionManagerGetDownload.cpp:44-57 | finds an item of the peer if there is one, and one in use before an idle one, a connected one before all |
| `DownloadQueue.ConnectionManager.PeerConnectInFlight` | dcpp/ConnectionManagerGetDownload.cpp:72-80 | true exactly when some item of the peer is connecting |
| `DownloadQueue.ConnectionManager.GetCQI` | dcpp/ConnectionManagerQueue.cpp:21-35 | a new item at a new address, waiting, at the end of the queue |
| `DownloadQueue.ConnectionManager.PutCQI` | dcpp/ConnectionManagerQueue.cpp:37-51 | exactly that item is freed, once |
| `DownloadQueue.ConnectionManager.SwitchDownloadIdentity` | dcpp/ConnectionManagerGetDownload.cpp:59-70 | switches exactly if there is another hub or identity to go through and no other item holds that identity; nothing else changes |
| `DownloadQueue.ConnectionManager.MergeQueueState` | dcpp/ConnectionManagerGetDownload.cpp:31-42 | keep takes the larger of each counter, and nothing else changes |
| `DownloadQueue.ConnectionManager.CheckWaiting` | dcpp/ConnectionManagerTimer.cpp:53-68 | a waiting item goes exactly when its peer is in use elsewhere or out of reach; one in use takes over its counters, and nothing else changes |
| `DownloadQueue.ConnectionManager.Visit` | dcpp/ConnectionManagerTimer.cpp:42-152 | a waiting item whose peer is in use elsewhere is merged into that one and goes; any other goes through the visit that VisitStarts, VisitDrops, VisitTimesOut and VisitKeepsOk are about, given what is around it, and all others stay as they are |
| `DownloadQueue.ConnectionManager.PreferFreeSlots` | dcpp/PeerConnectAttempt.cpp:42-44 | the items that may get a slot in front, both parts in the order of the queue |
| `DownloadQueue.ConnectionManager.OnSecond` | dcpp/ConnectionManagerTimer.cpp:26-166 | the whole round: all unwanted idle items are removed, none but removable ones, each exactly once; attempts start apart and are given up only when their time is over; what becomes of items whose peer has no other is exact; punctuality and one item per class are kept |
| `DownloadQueue.ConnectionManager.RemoveAll` | dcpp/ConnectionManagerTimer.cpp:154-156 | every listed item is freed once, no other |
| `DownloadQueue.ConnectionManager.GetDownloadConnection` | dcpp/ConnectionManagerGetDownload.cpp:140-187 | nothing unless the peer is ready and may connect; a new item if none is of the peer, otherwise the idle ones are joined; no attempt starts |
| `DownloadQueue.ConnectionManager.Join` | dcpp/ConnectionManagerGetDownload.cpp:158-179 | the idle items of the peer are merged into the one found, which takes over the wanted identity, and are freed once each |
| `DownloadQueue.ConnectionManager.FindStale` | dcpp/ConnectionManagerGetDownload.cpp:159-165 | exactly the other idle items of the peer |
| `DownloadQueue.ConnectionManager.MergeAll` | dcpp/ConnectionManagerGetDownload.cpp:166-169 | each stale item is merged into the one kept and freed once, and no other item changes |
| `DownloadQueue.ConnectionManager.Force` | dcpp/ConnectionManager.cpp:166-175 | the user's item is revived and may start at once; other items are untouched |
| `DownloadQueue.ConnectionManager.OnUpnpReady` | dcpp/ConnectionManagerQueue.cpp:79-90 | idle items not backing off may start at once, running attempts keep their times |
| `DownloadQueue.ConnectionManager.BlockRetry` | dcpp/ConnectionManagerLifecycle.cpp:39-52 | the user's item is parked and no longer connecting |
| `DownloadQueue.ConnectionManager.Failed` | dcpp/ConnectionManagerFailQueue.cpp:93-127 | the user's item changes by the retry policy or goes because nothing is wanted, and no other item changes otherwise |
| `DownloadQueue.ConnectionManager.AddDownloadConnection` | dcpp/ConnectionManagerAssoc.cpp:52-94 | a waiting or connecting item of the peer becomes active with its counters reset, never one queued on another hub, and nothing else changes state |
| `DownloadQueue.ConnectionManager.ClearOutgoingStrikes` | dcpp/ConnectionManagerCooldown.cpp:95-108 | only an item of the peer, and one if there is any, remembers the granted slot |
| `DownloadQueue.ConnectionManager.ForgetDownloadSlot` | dcpp/ConnectionManagerCooldown.cpp:110-120 | only an item of the peer, and one if there is any, forgets the slot and remembers the place in the queue |
| `DownloadQueue.ConnectionManager.InfReceived` | dcpp/ConnectionManagerAdcHandshake.cpp:153-165 | the item of a peer that told who it is has no errors any more, parked or not; all others are untouched |
| `DownloadRuns.Run` | dcpp/ConnectionManagerTimer.cpp:26-166 | over every run from an empty queue, whoever is recognised as whom from one event to the next: no two items share a user, each is freed at most once and never used afterwards, every item makes at most six attempts before it is parked, removed or answered, and the trace says what every event did |
| `DownloadRuns.AttemptsStartApart` | dcpp/ConnectionManagerTimer.cpp:134-151 | in every run an attempt starts only in a round of the timer, is timed and counted from there, and only if its peer is not recognised in that round as that of any other running attempt |
| `DownloadRuns.OneItemPerClass` | dcpp/ConnectionManagerGetDownload.cpp:158-179 | in every run with fixed classes of peers, Force and identity switches included, no class ever has two items and no attempt is ever hurried |
| `DownloadRuns.PunctualUnlessForced` | dcpp/ConnectionManagerFailQueue.cpp:79-91 | in every run without Force every attempt is timed from its start or later, whatever is merged |
| `DownloadRuns.FullWaitUnlessForced` | dcpp/ConnectionManagerTimer.cpp:94-108 | in every run without Force no attempt is given up before its full wait is over, whoever is recognised as whom |
| `DownloadRuns.FullWaitInFixedClasses` | dcpp/ConnectionManagerTimer.cpp:94-108 | nor in any run with Force, while peers are recognised by fixed classes |
| `DownloadRuns.WaitsNeverGrow` | dcpp/ConnectionManagerAssoc.cpp:66-74 | in every run in which peers are recognised by fixed classes and refuse slots on connections only, no item ever has more than one slot wait |
| `DownloadRuns.EarlyTimeout` | dcpp/ConnectionManagerPeerMatch.cpp:39-54 | in the run of seven given events an attempt that started at 20 seconds is given up at 52, 18 seconds early: it was forced, and a waiting item of what is by then the same peer was merged into it |
| `DownloadRuns.RunEarly` | dcpp/ConnectionManagerGetDownload.cpp:31-42 | that run, performed on the queue |
| `PeerTimeouts.Over` | dcpp/ConnectionManagerFailQueue.cpp:44-77 | a timed-out item waits to go on; with all its hubs timed out it is dropped at once if and only if its source resolves to no other hint |
| `PeerTimeouts.RequestMeans` | dcpp/PeerConnectAttempt.cpp:51-89 | a request goes out exactly if somebody is found on a hub that lets us connect and it is accepted |
| `PeerTimeouts.RoundOver` | dcpp/ConnectionManagerTimer.cpp:53-108 | one round for a peer that has not answered: a timeout lists one more hub, an attempt goes through a hub that is not listed, and with all hubs listed the item is dropped in this round exactly if it did not time out just now or its source resolves to no other hint |
| `PeerTimeouts.TimerRound` | dcpp/ConnectionManagerTimer.cpp:26-166 | the same for the queue and the skip lists together, whatever the round does to other items |
| `PeerTimeouts.TimeOuts` | dcpp/ClientManagerConnectHub.cpp:101-135 | an item whose peer never answers and is only seen on these hubs has at most as many timeouts as there are hubs, and leaves by the round after the last of them, however its identities, hints and outcomes change and whatever requests, forcing, port mapping, blocking, failures and events of others come in between |
| `HubSkip.BestIsUnique` | dcpp/ClientManagerConnectHub.cpp:92-96 | the best identity is unique: the first among the highest scores |
| `HubSkip.Pick` | dcpp/ClientManagerConnectHub.cpp:49-99 | the loop finds the best candidate, and none only if there is none |
| `HubSkip.AllowedFirst` | dcpp/ClientManagerConnectHub.cpp:66-69 | no hub that is in a wait is chosen while another is not |
| `HubSkip.FailedLast` | dcpp/ClientManagerConnectHub.cpp:74-78 | of these no hub where connecting failed is chosen while there is one where it succeeded |
| `HubSkip.NoneBetter` | dcpp/ClientManagerConnectHub.cpp:66-90 | nobody is chosen while a candidate is better in hub wait, outcome, hint, client tag or mode and worse in none |
| `HubSkip.Tradeoffs` | dcpp/ClientManagerConnectHub.cpp:66-90 | what makes up for what: a hint for a failure, a tag and a client that turns connections around together for a hint, all of these for a success |
| `HubSkip.PeerConnectHub.NoteConnectTimeout` | dcpp/PeerConnectHubSkip.cpp:30-49 | the hub joins the peer's list; a full map loses at most another peer's list; the map never grows past its bound |
| `HubSkip.PeerConnectHub.ClearConnectTimeouts` | dcpp/PeerConnectHubSkip.cpp:61-66 | only this peer's list is emptied |
| `HubSkip.PeerConnectHub.NotePeerReached` | dcpp/PeerConnectHubSkip.cpp:68-76 | the peer counts as reached and no longer as unreachable |
| `HubSkip.PeerConnectHub.NoteUnreachablePeer` | dcpp/PeerConnectHubSkip.cpp:85-94 | the peer is unreachable, not reached, and has an empty list |
| `HubSkip.PeerConnectHub.ClearPeerSession` | dcpp/PeerConnectHubSkip.cpp:112-119 | only this peer's list and reached mark are gone |
| `HubSkip.PeerConnectHub.FindBestOnlineUser` | dcpp/ClientManagerConnectHub.cpp:43-118 | what is returned and what becomes of the skip list, tied to the choice function |
| `HubSkip.PeerConnectHub.AllHubsConnectTimedOut` | dcpp/ClientManagerConnectHub.cpp:120-135 | true exactly when there is a viable identity and every viable one is on a listed hub |
| `HubSkip.ChoiceRules` | dcpp/ClientManagerConnectHub.cpp:101-117 | only the best viable identity outside the list is chosen; a listed hub only for a reached peer with all hubs listed, with the list emptied; nothing exactly when nothing is viable or a never-reached peer is out of hubs |
| `HubSkip.ChoicePrefers` | dcpp/ClientManagerConnectHub.cpp:66-117 | the same of whatever is chosen in the end |
| `HubSkip.PickExists` | dcpp/ClientManagerConnectHub.cpp:49-99 | a best candidate exists as soon as there is a candidate |
| `HubSkip.RunningUnlisted` | dcpp/ClientManagerConnectHub.cpp:43-118 | in every run the hub of an attempt that has not timed out is not on the list, whatever happened since it was chosen |
| `HubSkip.ListIsTimeouts` | dcpp/PeerConnectHubSkip.cpp:30-59 | in every run a peer's list holds exactly the hubs whose attempts timed out for it since the list was last empty |
| `HubSkip.NoTimedOutHubTwice` | dcpp/PeerConnectHubSkip.cpp:42-49 | in every run, with attempts, timeouts, answers and ends of sessions of any peers in any order: between two timeouts of one peer on one hub its list was empty |
| `HubSkip.TimeoutsBounded` | dcpp/ClientManagerConnectHub.cpp:101-117 | a never-reached peer has at most as many timeouts as there are named hubs on which it is ever seen, however users, hints and remembered outcomes change from round to round |
| `HubSkip.OneHubFewer` | dcpp/ClientManagerConnectHub.cpp:101-135 | every timed-out attempt of a peer seen on the same hubs uses up one of them |
| `HubSkip.HubsShrink` | dcpp/ClientManagerConnectHub.cpp:101-135 | after n such rounds, whatever else changes between them, the hubs left are at most those there are less n |
| `HubSkip.HubsRunOut` | dcpp/ClientManagerConnectHub.cpp:101-135 | a never-reached peer seen on the same named hubs is out of them after as many rounds, and from then on nothing is chosen for it |
| `HubSkip.HintKeepsBest` | dcpp/ClientManagerConnectHub.cpp:75-96 | the best identity stays the best when its hub becomes the hint, so that looking it up again finds the same |
| `HubSkip.RunPeers` | dcpp/PeerConnectHubSkip.cpp:30-119 | every run of the shared lists is one of these, evictions from a full table included |
| `SearchLists.DifferenceKeeps` | dcpp/AdcHubSearch.cpp:119-137 | what is left of the extensions once a group is used are exactly those outside the group, in order, whether the lists are sorted or not |
| `SearchLists.DifferenceExact` | dcpp/AdcHubSearch.cpp:119-121 | on ascending lists the merge gives the symmetric difference |
| `SearchLists.DifferenceCount` | dcpp/AdcHubSearch.cpp:119-121 | on sorted lists with repetitions it leaves every extension as often as it is more often in one of them |
| `SearchGroups.SplitDifferences` | dcpp/AdcHubSearch.cpp:124-139 | the loop separates what stays from what is removed and gives up exactly at a third removal |
| `SearchGroups.GroupExtensions` | dcpp/AdcHubSearch.cpp:106-151 | group flags, extensions and removals of the whole loop, tied to the choice of groups |
| `SearchGroups.TryGroup` | dcpp/AdcHubSearch.cpp:114-146 | one group is used exactly if it takes at most two removals; then extensions, removals and flags are what using it makes of them, otherwise nothing changes |
| `SearchGroups.AddFlag` | dcpp/AdcHubSearch.cpp:142 | adding the flag of a group sets that bit and no other |
| `SearchGroups.FlagIsPower` | dcpp/AdcHubSearch.cpp:142 | the flag of group i is 2^i |
| `SearchGroups.FlagByteFlags` | dcpp/AdcHubSearch.cpp:142 | the sum of the flags of the chosen groups has exactly their bits set |
| `SearchGroups.QueryIsRequest` | dcpp/AdcHubSearch.cpp:106-151 | for any groups and any request the query asks for nothing unrequested, for all that is requested exactly if none of it is among the removals, with at most two removals per group |
| `SearchGroups.QueryExact` | dcpp/AdcHubSearch.cpp:106-151 | for any table of sorted groups and any request: the query asks for exactly the request if and only if no requested extension is in two chosen groups, or named twice and in one of them |
| `SearchGroups.QueryPreserved` | dcpp/AdcHubSearch.cpp:106-151 | so for any table of sorted groups that have nothing in common it always does, for requests without repetitions |
| `SearchGroups.GroupedExactly` | dcpp/AdcHubSearch.cpp:106-151 | for any such table of groups of more than four: a group is used exactly if at most two of its extensions are missing from the request, and exactly these are removed; the order of the groups and stopping early make no difference |
| `SearchGroups.GroupedWithout` | dcpp/AdcHubSearch.cpp:113-139 | leaving a group that always takes more than two removals out of the table changes nothing |
| `SearchGroups.ThreeEarly` | dcpp/AdcHubSearch.cpp:119-137 | a group with three extensions that belong before its first one is such a group, whatever is requested |
| `SearchGroups.SendSearch` | dcpp/AdcHubSearch.cpp:183-198 | every user the command is for and who can be connected gets it exactly once, nobody else does |
| `SearchGroups.Search` | dcpp/AdcHubSearch.cpp:81-181 | every addressed user gets exactly one query, the grouped one exactly if it understands groups |
| `SearchGroups.DueAsksAlike` | dcpp/AdcHubSearch.cpp:106-181 | what goes out asks for what the grouping asks for, or without groups for exactly the request |
| `SearchGroups.HashAsksForNone` | dcpp/AdcHubSearch.cpp:90-92 | a search by hash asks for no extension |
| `SearchRepeats.RemovalsCost` | dcpp/AdcHubSearch.cpp:119-139 | using a sorted group takes one removal for every extension that was not requested and one for every time more than once that one was |
| `SearchRepeats.RepeatsExact` | dcpp/AdcHubSearch.cpp:106-151 | for any table of sorted, disjoint groups of more than four and any request: a group is used exactly if that takes at most two removals, and the query asks for the request without those extensions that are named more than once and in a used group |
| `SearchRepeats.TwiceIsLost` | dcpp/AdcHubSearch.cpp:119-139 | in any such table: a request for a whole group with one extension named twice does not ask for that one |
| `SearchReceiver.ParseSearchExts` | dcpp/AdcHubSearch.cpp:70-79 | the receiver gets back exactly the extensions of the flagged groups |
| `SearchReceiver.ReceiverCovers` | dcpp/share/ShareDirSearch.cpp:188-194 | a receiver never misses what is asked for and goes by nothing but that and the removals |
| `SearchReceiver.ReceiverWithin` | dcpp/share/ShareDirSearch.cpp:164-194 | for any request it has all that is requested and not lost, and nothing but the request and the groups that are used |
| `SearchReceiver.RemovedIsCut` | dcpp/share/ShareDirSearch.cpp:191-194 | on lists in any order, all removals take effect exactly if they cut the list into runs that are each before their removal |
| `SearchReceiver.CutsTable` | dcpp/share/ShareDirSearch.cpp:164-194 | whether the removals cut the receiver's list that way is decided by the request: no used group may leave an extension in front of the next removal that is not below it |
| `SearchReceiver.ReceiverExact` | dcpp/share/ShareDirSearch.cpp:164-194 | for any table of sorted, disjoint groups a receiver goes by at least the request, and by exactly the request if and only if no removal is passed over |
| `SearchReceiver.RemovalPassedOver` | dcpp/share/ShareDirSearch.cpp:191-194 | in any such table: a search for a group without its first extension and for a whole later one makes the receiver go by the extension left out, if the later group does not end below it |
| `SearchTable.SixRegular` | dcpp/AdcHubSearch.cpp:58-63 | the first six groups of the table are sorted, have nothing in common, and have more than four extensions each |
| `SearchTable.DiscImagesOutOfOrder` | dcpp/AdcHubSearch.cpp:62-64 | the seventh is not in order, and it shares an extension with the fifth |
| `SearchTable.DiscImagesNeverUsed` | dcpp/AdcHubSearch.cpp:64 | so it takes more than two removals for every request |
| `SearchTable.SearchExact` | dcpp/AdcHubSearch.cpp:106-151 | with the table of the client and for every request: the query uses exactly those of the first six groups that take at most two removals, and asks for exactly the request if and only if nothing in them is named more than once; only that is lost |
| `SearchTable.UniqueExact` | dcpp/AdcHubSearch.cpp:106-151 | so without repetitions it asks for exactly the request, and uses the groups of which at most two extensions are missing |
| `SearchTable.DueAsksRequest` | dcpp/AdcHubSearch.cpp:106-181 | every query that is sent asks for the request, with groups without what is lost, and without groups for all of it |
| `SearchTable.ApeTwiceIsLost` | dcpp/AdcHubSearch.cpp:119-139 | a request for the audio group with "ape" named twice does not ask for "ape" |
| `SearchTable.SearchReceived` | dcpp/share/ShareDirSearch.cpp:164-194 | a receiver with this table has all that is requested and not lost, and nothing but the request and the groups that are used; without repetitions it goes by exactly the request if and only if no removal is passed over, which the request alone decides |
| `SearchTable.LeftOutIsFound` | dcpp/share/ShareDirSearch.cpp:164-194 | for any two of the six groups: a search for the first without its first extension and for the whole second makes the receiver find the extension left out as well |
| `SearchTable.ApeIsFound` | dcpp/share/ShareDirSearch.cpp:164-194 | a search for audio files except "ape" and for archives finds "ape" |
| `NmdcEscape.Find` | dcpp/NmdcHubEscape.cpp:40-50 | the first occurrence at or behind a position, or that there is none |
| `NmdcEscape.ReplacePass` | dcpp/NmdcHubEscape.cpp:40-78 | an in-place pass of find and replace equals replacing all occurrences from left to right |
| `NmdcEscape.ValidateMessage` | dcpp/NmdcHubEscape.cpp:36-82 | the five passes escape, the three passes unescape |
| `NmdcEscape.EscapeIsEncode` | dcpp/NmdcHubEscape.cpp:55-79 | the five passes together are one single-pass encoding |
| `NmdcEscape.EscapeOneByOne` | dcpp/NmdcHubEscape.cpp:55-79 | character by character: the delimiters become entities, an ampersand that begins an entity is escaped itself, and everything else stays |
| `NmdcEscape.RoundTrip` | dcpp/NmdcHubEscape.cpp:36-82 | unescaping an escaped text gives the text back, for every text |
| `NmdcEscape.EscapedHasNoDelimiter` | dcpp/NmdcHubEscape.cpp:70-79 | an escaped text contains neither of the two protocol delimiters |
| `Base32.Letter` | dcpp/Encoder.cpp:48 | every letter of the alphabet decodes to its own value and is not NUL |
| `Base32.Alphabet` | dcpp/Encoder.cpp:48 | A to Z are 0 to 25 and 2 to 7 are 26 to 31 |
| `Base32.Recognised` | dcpp/Encoder.cpp:29-46 | a character is recognised exactly if its capital is in the alphabet, and has its value |
| `Base32.TakeWord` | dcpp/Encoder.cpp:58-71 | one round takes the next five bits and moves on by five |
| `Base32.WordBits` | dcpp/Encoder.cpp:58-71 | bit by bit, the word spans the byte boundary correctly |
| `Base32.ToBase32` | dcpp/Encoder.cpp:50-77 | appends ceil(8n/5) letters of the alphabet that carry the bits of the data in order, filled up with zeros |
| `Base32.OneByte` | dcpp/Encoder.cpp:50-77 | a single byte becomes its upper five bits and its lower three with zeros behind them |
| `Base32.FirstVector` | dcpp/Encoder.cpp:50-77 | "f" becomes "MY" |
| `Base32.PutWord` | dcpp/Encoder.cpp:90-107 | one value is stored at the write position and nothing else changes; all writes are in bounds |
| `Base32.PutBits` | dcpp/Encoder.cpp:90-107 | after it the buffer carries one more value |
| `Base32.FromBase32` | dcpp/Encoder.cpp:79-109 | the whole buffer is filled with the bits of the recognised characters up to NUL, then zeros, within bounds |
| `Base32.RoundTrip` | dcpp/Encoder.cpp:50-109 | decoding an encoding into a buffer of the data's size gives the data back |
| `Base32.ThereAndBack` | dcpp/Encoder.cpp:50-109 | the same over the two methods for all data but the empty one |
| `Base32.CleanedDecodesAlike` | dcpp/Encoder.cpp:84-88 | letter case and unrecognised characters make no difference |
| `NaturalCompare.PathDepth` | dcpp/NaturalCompare.cpp:30-44 | the number of non-empty segments, counted by where they begin, or 0 without a separator |
| `NaturalCompare.DepthIsSegments` | dcpp/NaturalCompare.cpp:30-44 | a text with a separator is as deep as it has segments, any other has depth 0 |
| `NaturalCompare.OneSegment` | dcpp/NaturalCompare.cpp:30-44 | a non-empty text without separators is one segment |
| `NaturalCompare.SegmentsAddUp` | dcpp/NaturalCompare.cpp:30-44 | the segments in front of a separator and those behind it add up |
| `NaturalCompare.ParseDurationMs` | dcpp/NaturalCompare.cpp:79-113 | the total of the numbers with units from a place on, modulo 2^64, and where they end |
| `NaturalCompare.UnitLengths` | dcpp/NaturalCompare.cpp:46-77 | a second is a thousand milliseconds, a minute sixty seconds, an hour sixty minutes, a day 24 hours |
| `NaturalCompare.UnitMeans` | dcpp/NaturalCompare.cpp:46-77 | a unit stands at a place if its letters do, in either case, and no letter follows |
| `NaturalCompare.TokenMeans` | dcpp/NaturalCompare.cpp:79-113 | a number with a unit, with or without blanks, is that many units, modulo 2^64 |
| `NaturalCompare.DurationIsSum` | dcpp/NaturalCompare.cpp:79-113 | a duration is the sum of its parts, modulo 2^64 |
| `NaturalCompare.DurationEnds` | dcpp/NaturalCompare.cpp:79-113 | blanks behind a duration belong to it unless they lead to a number without a unit |
| `NaturalCompare.CompareDigitRuns` | dcpp/NaturalCompare.cpp:115-147 | by significant length, then digits, then leading zeros; both runs consumed when equal |
| `NaturalCompare.RunsInOrder` | dcpp/NaturalCompare.cpp:115-147 | runs of digits are ordered by the numbers they stand for, of any length, and those of one number by their length |
| `NaturalCompare.ComparedIsOrder` | dcpp/NaturalCompare.cpp:134-139 | of two numbers of one length the one that comes first alphabetically is smaller |
| `NaturalCompare.CompareNatural` | dcpp/NaturalCompare.cpp:151-194 | the loop computes the order function |
| `NaturalCompare.ShallowFirst` | dcpp/NaturalCompare.cpp:152-157 | fewer segments come first |
| `NaturalCompare.NumbersDecide` | dcpp/NaturalCompare.cpp:162-177 | two texts of one depth that first differ in a number are ordered by it: as durations if both are, otherwise as numbers |
| `NaturalCompare.CharactersDecide` | dcpp/NaturalCompare.cpp:179-191 | those that first differ elsewhere by the characters there without regard to case, the end of a text first |
| `NaturalCompare.NaturalBack` | dcpp/NaturalCompare.cpp:151-194 | turning the arguments around turns the result around, for all strings |
| `NaturalCompare.NumbersChain` | dcpp/NaturalCompare.cpp:162-177 | three numbers of one kind compare consistently, and how far each is consumed depends on it alone |
| `NaturalCompare.CompareChain` | dcpp/NaturalCompare.cpp:161-191 | transitive from any three positions from which the numbers ahead are of the same kinds in the same order |
| `NaturalCompare.NaturalChain` | dcpp/NaturalCompare.cpp:151-194 | the order is transitive on any three texts whose numbers, durations and others, are of the same kinds in the same order as far as they go |
| `NaturalCompare.KindsExact` | dcpp/NaturalCompare.cpp:151-194 | for any choice of kinds: the order is transitive on all texts with numbers of these kinds if and only if any two of the choice agree as far as both go |
| `NaturalCompare.UniformChain` | dcpp/NaturalCompare.cpp:151-194 | so it is a total preorder on texts in which all numbers are durations, and on those in which none is |
| `NaturalCompare.NaturalSame` | dcpp/NaturalCompare.cpp:151-194 | without durations two strings count as equal exactly if they differ in letter case only |
| `NaturalCompare.MixedCycle` | dcpp/NaturalCompare.cpp:162-177 | wherever two lists of kinds part there are three texts with these kinds that form a cycle: two minutes, one hour and no duration at that place |
| `LineReader.ScanAccounts` | dcpp/BufferedSocketRead.cpp:93-120 | the lines of a stream are its non-empty pieces between separators up to the first the listener reacts to, and the rest is the unfinished line or the data |
| `LineReader.ScanReadOn` | dcpp/BufferedSocketRead.cpp:102-120 | reading a stream in two parts comes to the same as reading it whole |
| `LineReader.BufferedSocket.TakeLine` | dcpp/BufferedSocketRead.cpp:106-108 | an empty line is not handed out, any other once, before the listener reacts |
| `LineReader.BufferedSocket.TakeLines` | dcpp/BufferedSocketRead.cpp:103-116 | stops at the last separator, a change of mode or a hang-up, with the rest of the text and of the buffer in step |
| `LineReader.BufferedSocket.ReadLines` | dcpp/BufferedSocketRead.cpp:102-120 | lines, unfinished line, mode and where the data begins |
| `LineReader.BufferedSocket.Detect` | dcpp/BufferedSocketRead.cpp:95-101 | the first byte of the stream decides an unset separator |
| `LineReader.NmdcCommand` | dcpp/BufferedSocketRead.cpp:95-116 | the first command of a peer that begins with a dollar sign ends at the first bar |
| `LineReader.AdcCommand` | dcpp/BufferedSocketRead.cpp:95-116 | that of any other peer ends at the first line feed |
| `LineReader.BufferedSocket.ThreadRead` | dcpp/BufferedSocketRead.cpp:35-150 | after every read everything handed out is the outcome of the whole stream so far, and the connection breaks exactly when it was closed or the unfinished line is too long |
| `LineReader.BufferedSocket.ReadAll` | dcpp/BufferedSocketRead.cpp:35-150 | for every cut of a stream into reads, and only an overlong line breaks it |
| `SocketWriter.StepCounts` | dcpp/BufferedSocket.cpp:108-123 | the signals count the tasks, so an empty queue is never popped |
| `SocketWriter.StepInOrder` | dcpp/BufferedSocketWrite.cpp:138-182 | no step loses, doubles or reorders a byte |
| `SocketWriter.StepSound` | dcpp/BufferedSocketWrite.cpp:138-158 | bytes to be sent always have a task that will send them, or, if written too early, never get one |
| `SocketWriter.StepKeeps` | dcpp/BufferedSocket.cpp:108-136 | every step of every thread keeps all of this |
| `SocketWriter.RunKeeps` | dcpp/BufferedSocket.cpp:108-136 | over every interleaving |
| `SocketWriter.SentIsWritten` | dcpp/BufferedSocketWrite.cpp:138-182 | sent bytes are a prefix of the written ones; a running connection is stuck if and only if bytes were written before the opening was queued; otherwise a worker with nothing to do has sent everything |
| `SocketWriter.StepOpensOrNot` | dcpp/BufferedSocket.cpp:108-136 | a connection opens exactly by its first task, and fails before that exactly when this does or it is disconnected |
| `SocketWriter.StepEnds` | dcpp/BufferedSocket.cpp:108-136 | an open one ends exactly by a disconnect or when sending or reading fails, and what has ended never begins again |
| `SocketWriter.StepLeaves` | dcpp/BufferedSocket.cpp:100-106 | only a shutdown ends the worker |
| `SocketWriter.SendGoesOn` | dcpp/BufferedSocketWrite.cpp:160-182 | as long as the network takes something every round sends something or is the last one |
| `SocketWriter.NoSocketNoTask` | dcpp/BufferedSocket.cpp:108-123 | in every run the opening is queued once, and without a socket nothing is queued but the end |
| `SocketWriter.DisconnectSendsFirst` | dcpp/BufferedSocketWrite.cpp:138-158 | when the turn of a disconnect that is not graceless comes and nothing was written since, everything has been sent |
| `SocketWriter.FailedIsEnded` | dcpp/BufferedSocket.cpp:108-136 | in every run a connection that failed sends nothing any more |
| `SocketWriter.EndedForever` | dcpp/BufferedSocket.cpp:108-136 | and never does again |
| `SocketWriter.StuckForever` | dcpp/BufferedSocketWrite.cpp:142-145 | once stuck, nothing more is sent whatever is written |
| `SocketWriter.EarlyWriteIsStuck` | dcpp/BufferedSocket.cpp:82-84 | a run in which the task to send is dropped while the connection is being opened |
| `SocketWriter.BufferedSocket.Perform` | dcpp/BufferedSocket.cpp:108-136 | any step of any thread on the object is the step of the model and keeps the invariant |
| `SocketWriter.RunThreads` | dcpp/BufferedSocket.cpp:108-136 | the object under any interleaving of its threads: what it sent is a prefix of what was written; while it runs it is stuck exactly if bytes were written before the opening was queued, and otherwise an idle worker without a task has sent everything |
| `Segments.InsertAt` | dcpp/queue/Segment.h:70-72 | inserting into the ordered set puts the segment where its order says |
| `Segments.AddedCovers` | dcpp/QueueItemProgress.cpp:77-96 | exactly which bytes are covered after any segment is added, including those that are lost |
| `Segments.AddedApart` | dcpp/QueueItemProgress.cpp:77-96 | the set stays ordered with a gap between any two segments |
| `Segments.CoverageKept` | dcpp/QueueItemProgress.cpp:77-96 | exactly the old bytes and the new segment are covered if and only if neither the new nor an old segment lies strictly inside the other |
| `Segments.LossWitness` | dcpp/QueueItemProgress.cpp:87-88 | a byte that is lost whenever one does |
| `Segments.QueueItem.Merge` | dcpp/QueueItemProgress.cpp:85-91 | two neighbours become one, and the iterator stays on the one behind them |
| `Segments.QueueItem.AddSegment` | dcpp/QueueItemProgress.cpp:77-96 | the loop gives the set with those bytes, ordered and apart |
| `Segments.QueueItem.GetDownloadedBytes` | dcpp/QueueItemProgress.cpp:69-75 | the number of covered bytes, each counted once |
| `Segments.QueueItem.IsChunkDownloaded` | dcpp/QueueItem.h:119-133 | found exactly if the first byte is covered; the run is wholly covered and ends at the wanted length or before an uncovered byte |
| `Segments.QueueItem.IsNeededPart` | dcpp/QueueItemProgress.cpp:107-118 | false only if every range is wholly covered; on ascending ranges true only if some range is not |
| `Segments.QueueItem.IsFinished` | dcpp/QueueItem.h:142-144 | for a non-empty file: true exactly if its bytes and no others are covered |
| `Segments.DownloadsAddUp` | dcpp/QueueItemProgress.cpp:69-96 | downloads that do not overlap, in any order and number: exactly their bytes are covered and counted |
| `Segments.FinishedIsCovered` | dcpp/QueueItem.h:142-144 | a file counts as finished exactly if its bytes and no others are covered |
| `OnlineUsers.TellOne` | dcpp/ClientManager.cpp:201-230 | one more event keeps connects and disconnects of every user in turns |
| `OnlineUsers.WhoIsUser` | dcpp/AdcHubUsers.cpp:20-71 | everybody a hub lists is a user but the hub itself |
| `OnlineUsers.ClientManager.PutOnline` | dcpp/ClientManager.cpp:195-205 | one entry more, and a connect event exactly if the user was not online |
| `OnlineUsers.ClientManager.PutOffline` | dcpp/ClientManager.cpp:207-232 | exactly that entry less, and a disconnect event exactly with the last one |
| `OnlineUsers.ClientManager.GetUser` | dcpp/NmdcHubUsers.cpp:20-48 | a place that has no listing yet gets one of its own, indexed unless it is the hub's; a known place changes nothing |
| `OnlineUsers.ClientManager.PutUser` | dcpp/AdcHubUsers.cpp:55-71 | the place loses its listing, which leaves the index and is deleted |
| `OnlineUsers.ClientManager.ClearUsers` | dcpp/AdcHubUsers.cpp:73-85 | only that hub's listings go, from its list and from the index |
| `OnlineUsers.Run` | dcpp/ClientManager.cpp:195-232 | over every sequence of joins, quits and clears the index is the disjoint union of the hubs' lists, the flag is set exactly for listed users, and everybody is told in turns |

## Left out

- The Tiger compression function: a parameter of every theorem, any function from bytes to 24-byte digests.
- Widths of file sizes and times: 64-bit sizes, positions and ticks are unbounded here; 32-bit casts and 64-bit duration
  arithmetic are modelled where they are used.
- calcBlockSize, verifyRoot, verifiedBytes and the constructors of a tree from bytes or from a single root: easy members.
- The file behind MerkleCheckOutputStream: only what it is handed on is modelled, not the writing.
- TreeTransfer.EndData: requires a leaf; without one the loop of the source does not end, or an index is out of range, as
  TreeTransfer.LoopEndsExactly says.
- MerkleTree.MerkleTree.Finalize: requires the leaves to reach the block count that getHash reads, which the source
  asserts in debug builds only; TreeStreaming.LeafCountExact says when they do.
- HubSkip.HubsRunOut: for named hubs; a nameless hub is never put on the list, in the source as here.
- PeerTimeouts.TimeOuts: for a peer that is recognised as nobody else, has no other identity and does not connect, on named
  hubs and not over DHT; the skip lists of the other items in the queue are oracles there, and no timeout of theirs evicts
  this peer's list, which HubSkip.RunPeers allows.
- Handshake: $Supports messages, which change no state used here, TLS trust, and the ADC handshake. Looking up the peer's
  nick, the queued download and slot waits are oracles that may answer anything.
- DownloadQueue: TLS retries (secureMode), the latch on outgoing requests, upload items, listeners and logging. The rest of
  the program, hub selection included, is an oracle that may answer anything per event, except in PeerTimeouts. Items are
  addresses in a store so that freeing is visible; other aliases of the source's pointers are not modelled.
- DownloadQueue.ConnectionManager.PutCQI: the end of the user's session in the skip lists is not in its contract; it is an
  event of HubSkip.RunPeers.
- DownloadQueue.ConnectionManager.InfReceived: only what it does to the queue; the rest of the ADC handshake is left out.
- DownloadRuns.Run: no bound on attempts across answers of the peer or Force, which both reset the budget.
- DownloadQueue.ConnectionManager.OnSecond: of items whose peer is recognised as another one's, it does not say which of those
  that may start do; that is stated per item in DownloadQueue.ConnectionManager.Visit and DownloadItem.VisitStarts.
- SearchGroups: the other parameters of a search (token, size, keywords, type), which all its commands share, the
  state check at the start of search, and file-name matching at the receiver.
- SearchTable.SearchReceived: exactly what a receiver goes by is said for requests without repetitions only; for the others
  it gives what the receiver has at least and at most.
- NaturalCompare: characters beyond ASCII, whose lower case depends on the locale, and texts with NUL.
- NaturalCompare.NumbersDecide: for texts that have no durations in front of the place where they differ.
- LineReader: compressed mode, data mode of a fixed length, rollback, and hang-ups by another thread in the middle of a
  read; data listeners do not change the mode.
- SocketWriter: sending files is one step of the worker; sockets, waiting and the shutdown of the whole program.
- Segments: signs and the overlapped mark of segments, and the choice of the next segment to fetch.
- Segments.QueueItem.IsNeededPart: the block numbers are unbounded, and the list has an even length, as the source assumes.
- Base32.FromBase32: a buffer of length zero only for texts without recognised characters, since the source writes its first
  byte otherwise.
- OnlineUsers: the tables of all hubs are one map from hub and key; users, nicks and identities beyond their number are
  left out.
- OnlineUsers.ClientManager.PutOffline: requires the entry to exist, which the source asserts.
