# Verification of ArtiGate's transport and collectors

ArtiGate moves artifact bundles from a low side to a high side over a one-way link (a data diode).
This project models the parts of it that are hardest to get right and proves what they promise, over
all inputs and over whole runs.

**The diode transport** (`cmd/artigate/diodewire.go`). The sender cuts a file into Reed-Solomon
blocks and those into datagrams. The receiver rebuilds files from whatever datagrams arrive, keeps
the blocks of attempts that ran dry for later ones, and lands a file under its name only after its
hash matches. The receiver exists twice here: as a state machine over values (`Machine`), about which
the theorems are proved, and as the code has it, with objects updated in place (`Objects`,
`Assembler`, `Catcher`), proved to do exactly what the state machine does.

| file | what it holds |
|---|---|
| `Bytes`, `Bitset`, `MapSum` | integers as bytes, the done bitset, sums over maps |
| `Wire` | the datagram format, parsing and validation |
| `Library` | SHA-256, CRC-32, Reed-Solomon and the name check as parameters |
| `Sender`, `Transmit` | the transmission of a file, and the buffers `sendDiodeFile` fills in place |
| `Landing` | the landing directory with its history of atomic operations |
| `Machine` | the receiver as a state machine: datagram, sweep, crash |
| `Invariant`, `Frames`, `Preserve` | the invariant of every reachable state |
| `Beside` | what a datagram or a sweep leaves of the transfers it is not about |
| `Gates` | what the receiver's gates and clocks let through, written out |
| `Runs`, `Remembering` | runs with crashes: landing safety, accounting, progress never lost, machine integers, the ring of finished transfers |
| `Delivery`, `Progress`, `EndToEnd` | from the first datagram to the landed file, among sweeps and other transfers |
| `Resuming`, `Convergence` | resumed attempts, crashes while progress is persisted, failed adoptions |
| `Objects`, `Assembler`, `Catcher` | the receiver in place, from one bit of its bitset to its receive loop |

**The collectors and repositories.**

| file | what it holds |
|---|---|
| `ArtifactGraph` | collecting a container manifest with everything it requires, all or nothing |
| `Repository` | the high side's container repositories: what every history of imports keeps reachable |
| `Integrity`, `Soundness` | the offline check of repositories, and its repair from content; what its verdicts mean on disk |
| `Pagination` | tag and referrer listings page by page |
| `Lexical`, `DebianVersion`, `Alpine`, `Conda` | three version orders and what is chosen by them |
| `Crates` | Cargo requirements and the crate resolver's worklist |
| `Splitting`, `Exporting` | exports that leave out what was sent before, and the store that remembers it, under failures and crashes |
| `Sequences` | ranges of bundle numbers: the report of missing bundles and the request to send them again |

Seven statements in the code or its comments turn out not to hold as they stand; each is settled by
an exact condition.

- `validate` bounds the shard index from above only, so a packet with a negative one passes and is
  refused by the receiver (`Wire.RoundTrip`, `Wire.NegativeShardIndexIsLost`).
- A comment on persisting a partial says that a crash between the state file and the data file makes
  the next probe fail cleanly. It does unless a usable file of an older partial has the name
  (`Convergence.CrashWhilePersisting`, `Convergence.StaleStateAfterCrash`); the hash check at the end
  then catches what the stale bytes would spoil (`Convergence.HashGate`, `Runs.LandingSafety`).
- A comment on adopting a partial says that a failed adoption leaves the partial where it is. It does
  unless the file cannot be opened again after it was renamed; then the code removes it, and the state
  is gone too (`Convergence.FailedAdoption`, `Convergence.PartialLost`).
- Debian epochs are compared by subtraction, which wraps around for epochs that are far apart
  (`DebianVersion.CompareVersions`, `DebianVersion.EpochsWrap`), so that the newest package is sure to be
  kept only if no two epochs are (`DebianVersion.NewestIff`).
- Cargo requirements of several comparators let in pre-releases of a version that one of them excludes
  (`Crates.MatchesAsPromised`, `Crates.SlipsIn`).
- The newest Alpine package of a name is sure to be kept only if the versions that do not parse do not come, as
  text, between others that are the other way round (`Alpine.NewestIff`, `Alpine.GoesRound`).
- Merging and expanding ranges step past the greatest int64 (`Sequences.Merge`, `Sequences.EndsIff`,
  `Sequences.Expand`, `Sequences.Reexport`).

## Model

| member | source | states |
|---|---|---|
| `Wire.DecodedDatagram` | cmd/artigate/diodewire.go:153-227 | For every typed packet with a name of 1 to 128 bytes: decoding the marshalled bytes gives the packet back with its int fields cut to their header width and nothing else changed; magic, version and checksum match |
| `Wire.ParseDatagram` | cmd/artigate/diodewire.go:153-258 | Parsing a marshalled packet accepts the cut packet, or rejects it with exactly the error validation reports for it |
| `Wire.RoundTrip` | cmd/artigate/diodewire.go:153-258 | For every packet that `validate` accepts: parsing its datagram returns it if and only if its shard index is not negative |
| `Wire.NegativeShardIndexIsLost` | cmd/artigate/diodewire.go:248-258 | A concrete packet, one that only a caller in the process can build, which `validate` accepts (the shard index is bounded from above only) and whose datagram the receiver rejects |
| `Wire.ParsedIsValid` | cmd/artigate/diodewire.go:194-258 | Every datagram the parser accepts yields a typed, valid packet with a name of 1 to 128 bytes and a non-negative shard index |
| `Wire.ValidBounds` | cmd/artigate/diodewire.go:231-258 | The bounds validation establishes, among them that block length and offset stay inside the file and a block is at most 15 360 000 bytes |
| `Wire.Canonical` | cmd/artigate/diodewire.go:153-227 | The converse round trip: marshalling an accepted packet gives the same bytes if and only if the unused tail of the name field is zero, so nothing else in a datagram is ignored |
| `Wire.LayoutMeans` | cmd/artigate/diodewire.go:140-181 | Which byte of a datagram says what, in network byte order: magic, version, name length, geometry, block, file, identifiers, name with zeros after it, checksum and shard |
| `Wire.ValidateMeans` | cmd/artigate/diodewire.go:231-258 | Exactly what validation accepts, and which error it gives otherwise, that of the first check that fails |
| `Sender.PlansAreValid` | cmd/artigate/diodewire.go:288-299 | Every plan `newDiodePlan` returns has a legal geometry and a shard size of 128 to 60000 bytes that fills the MTU exactly unless capped |
| `Sender.PlanMeans` | cmd/artigate/diodewire.go:288-299 | There is a plan exactly for legal numbers of shards and an MTU of at least 400, and its shards are what the headers leave of the MTU, up to 60000 bytes |
| `Sender.Tiling` | cmd/artigate/diodewire.go:314-362 | The blocks tile the file: a block starts inside it exactly when its index is below the block count, each follows the previous without gap or overlap, and the last ends with the file |
| `Sender.JoinedBlock` | cmd/artigate/diodewire.go:368-379 | Joining the data shards of a block and dropping the zero padding gives the block back, the short last block included |
| `Sender.SendableMeans` | cmd/artigate/diodewire.go:314-335 | What can be sent: at least one byte, of the announced size, under a name of 1 to 128 bytes, in at most 2^22 blocks of a legal plan |
| `Sender.PacketValid` | cmd/artigate/diodewire.go:314-362 | Every packet of a transmission passes `validate` |
| `Sender.PacketsParse` | cmd/artigate/diodewire.go:194-362 | Every datagram of a transmission parses to the packet it was made from |
| `Sender.EmissionGrows` | cmd/artigate/diodewire.go:336-360 | Sending one more block appends exactly its shards in index order |
| `Sender.EmissionIsComplete` | cmd/artigate/diodewire.go:301-309 | `packetCount` is the number of datagrams a file becomes, and shard `si` of block `b` is the datagram at position `b * total + si` |
| `Transmit.Marshal` | cmd/artigate/diodewire.go:153-181 | Filling a reused buffer in place produces exactly the datagram of the packet, whatever the buffer held before; a name that does not fit is refused and leaves the buffer untouched |
| `Transmit.SplitBlock` | cmd/artigate/diodewire.go:368-379 | The copy loop into one zeroed backing buffer yields the zero-padded data shards and zero parity shards of the specification |
| `Transmit.SendBlock` | cmd/artigate/diodewire.go:347-358 | Emits the shards of one block in order until one is refused |
| `Transmit.SendDiodeFile` | cmd/artigate/diodewire.go:314-362 | Sends exactly the whole transmission of the file, or stops with a prefix of it; which error is returned when |
| `Bitset.SetMembers` | cmd/artigate/diodewire.go:663-670 | Setting a bit adds exactly that block to the done set |
| `Bitset.PopCountIsCardinality` | cmd/artigate/diodewire.go:976-995 | The sum of the words' population counts is the number of done blocks |
| `Bitset.DecodeAccepts` | cmd/artigate/diodewire.go:976-995 | Decoding accepts exactly the byte strings of the right length with no bit at or beyond the block count |
| `Bitset.DecodeEncode` | cmd/artigate/diodewire.go:965-995 | Decoding an encoded bitset without bits beyond the block count returns it |
| `Bitset.SetRoundTrip` | cmd/artigate/diodewire.go:965-995 | Encoding a set of blocks and decoding it returns the same set, for every set below the block count |
| `Bitset.EncodedBit` | cmd/artigate/diodewire.go:965-971 | Block x is bit x % 8 of byte x / 8 of the encoding |
| `Objects.EncodeBitset` | cmd/artigate/diodewire.go:965-971 | The loop over the words produces the little-endian encoding |
| `Objects.DecodeBitset` | cmd/artigate/diodewire.go:976-995 | The loop returns the words and their population count exactly when the encoding is acceptable |
| `Landing.NamesApart` | cmd/artigate/diodewire.go:113-124 | Temporary, partial, state and final names never coincide, whatever file names they are built from |
| `Landing.OverlayTwice` | cmd/artigate/diodewire.go:749-767 | Two adjacent offset writes are one write of the joined bytes |
| `Objects.OpenBlock.AddShard` | cmd/artigate/diodewire.go:738-745 | Stores a shard in its slot once; a duplicate changes nothing |
| `Objects.OpenBlock.Reconstruct` | cmd/artigate/diodewire.go:780-800 | Fills in exactly the missing data shards from the library's answer and keeps the received ones; the library is asked only when some are missing |
| `Objects.ActiveTransfer.SetBlockDone` | cmd/artigate/diodewire.go:667-670 | Adds one block to the done set and counts it |
| `Objects.ActiveTransfer.OldestBlock` | cmd/artigate/diodewire.go:718-734 | The scan over the map finds the lowest open block |
| `Assembler.Assembler.constructor` | cmd/artigate/diodewire.go:455-464 | A new reassembler is the idle state machine over the directory as it is |
| `Assembler.Assembler.ReleaseBlock` | cmd/artigate/diodewire.go:769-776 | Returns a block's reservation to both byte counters, once |
| `Assembler.Assembler.EvictOpenBlock` | cmd/artigate/diodewire.go:718-734 | Gives up exactly the lowest open block, and only for a newcomer above it |
| `Assembler.Assembler.FindBlock` | cmd/artigate/diodewire.go:675-706 | Finds or opens the packet's block in place exactly as the state machine does, evicting and checking both budgets first |
| `Assembler.Assembler.WriteBlock` | cmd/artigate/diodewire.go:753-761 | The writing loop performs the specified writes and stops at the first failing one |
| `Assembler.Assembler.CompleteBlock` | cmd/artigate/diodewire.go:749-767 | Reconstructs, writes and closes a block; a failure leaves the reservations as they were |
| `Assembler.Assembler.RemoveActive` | cmd/artigate/diodewire.go:1069-1076 | Takes a transfer and all its reservations out of the books, whatever order the block map is walked in |
| `Assembler.Assembler.RememberDone` | cmd/artigate/diodewire.go:1078-1094 | The ring update in place is that of the state machine |
| `Assembler.Assembler.LandFile` | cmd/artigate/diodewire.go:1021-1057 | The sequence of checks and directory operations that lands a file, with every failure exit |
| `Assembler.Assembler.FinishTransfer` | cmd/artigate/diodewire.go:999-1016 | Ends a transfer and lands or discards its file |
| `Assembler.Assembler.FailTransfer` | cmd/artigate/diodewire.go:1061-1067 | Ends a transfer and discards its file |
| `Assembler.Assembler.ProbePartial` | cmd/artigate/diodewire.go:856-874 | Finds a partial's progress exactly when its state describes this content and is consistent |
| `Assembler.Assembler.AdoptPartialFile` | cmd/artigate/diodewire.go:637-661 | Moves the partial under a fresh temporary name and consumes its state; every failure exit |
| `Assembler.Assembler.AdmitNewTransfer` | cmd/artigate/diodewire.go:565-587 | The admission gates, with an adopted partial credited against the quota |
| `Assembler.Assembler.TransferFor` | cmd/artigate/diodewire.go:534-558 | Finds, refuses or opens the packet's transfer, leaving all others as they were |
| `Assembler.Assembler.HandleDatagram` | cmd/artigate/diodewire.go:482-517 | The in-place code refines the state machine: for every byte string, the state after it is the specified one, the invariant holds again, and only objects of the reassembler were touched |
| `Assembler.Assembler.PersistPartial` | cmd/artigate/diodewire.go:889-920 | State first, then data; anything that cannot be kept is removed |
| `Assembler.Assembler.ExpireStale` | cmd/artigate/diodewire.go:1110-1132 | The in-place sweep refines the state machine's for the order the map iteration takes, which visits every active transfer |
| `Assembler.Assembler.ReapPartials` | cmd/artigate/diodewire.go:946-962 | The loop over the listing removes old states together with their partials |
| `Catcher.ReceiveOne` | cmd/artigate/catcher.go:211-231 | One turn of the receive loop is exactly these steps of the state machine: the datagram that was read, if one was and it is no heartbeat, then a sweep if it is due, which visits every active transfer once; the next sweep is due 15 seconds later |
| `Catcher.Serve` | cmd/artigate/catcher.go:198-231 | The whole loop, from start until the socket is closed, over whatever the socket yields, is exactly the run of the state machine that the turns amount to: every datagram in order, every sweep when it is due |
| `Catcher.Catch` | cmd/artigate/catcher.go:198-231 | Landing safety and the budgets hold of the code in place after any sequence of turns |
| `Catcher.Deliver` | cmd/artigate/catcher.go:198-231 | Delivery by the code in place: when the turns of the loop amount to a reception of a file, with any losses, duplicates, reordering, other traffic and sweeps, the file is in the landing directory, byte for byte |
| `Preserve.HandleKeeps` | cmd/artigate/diodewire.go:482-517 | Whatever bytes arrive and whatever the file system answers, handling them keeps the whole invariant |
| `Preserve.OpenKeeps` | cmd/artigate/diodewire.go:565-661 | Opening a transfer keeps the invariant: quota, slots, own temporary file, a consistent resumed done set |
| `Preserve.BlockForKeeps` | cmd/artigate/diodewire.go:675-734 | Opening a block, with or without an eviction, stays within both byte budgets and 32 blocks; whether or not it succeeds, the transfer keeps its done blocks and the directory is untouched |
| `Preserve.CompleteKeeps` | cmd/artigate/diodewire.go:749-767 | Completing a block keeps open and done blocks disjoint, counts it once and never writes past the file |
| `Preserve.SweepKeeps` | cmd/artigate/diodewire.go:1106-1132 | Expiry, reaping and forgetting keep the invariant in any visiting order |
| `Invariant.RememberKeeps` | cmd/artigate/diodewire.go:1078-1094 | The ring stays consistent; an ending transfer's ID was not remembered, so the refreshing branch is never taken |
| `Invariant.RememberedAtMost` | cmd/artigate/diodewire.go:1078-1094 | At most 4096 IDs are remembered |
| `Runs.StepKeeps` | cmd/artigate/diodewire.go:482-517 | Every event of a run keeps the invariant: a datagram, a sweep, or a crash after any number of their directory operations |
| `Runs.LandingSafety` | cmd/artigate/diodewire.go:565-587 | For every run with arbitrary datagrams, sweeps, stale states and crashes, at every instant: a bundle file in the landing directory was there before or has a valid name, a size within its limit, and the length and SHA-256 some datagram announced for that name |
| `Runs.Accounting` | cmd/artigate/diodewire.go:386-453 | For every run: the counters are the sums of what is reserved; 256 MiB, 64 MiB, 32 blocks, 16 transfers, 128 GiB and 4096 IDs are never exceeded; open and done blocks and active and done IDs are disjoint; every active transfer lacks a block and every open block lacks shards |
| `Runs.NothingWraps` | cmd/artigate/diodewire.go:565-587 | In every reachable state the int64 and uint32 arithmetic of the next admission and the next block cannot wrap |
| `Runs.DoneGrows` | cmd/artigate/diodewire.go:708-767 | Completed blocks never regress: whatever event happens to a transfer that stays active, an eviction, a full budget, a datagram of any transfer or a sweep, its done set loses nothing and gains at most the block of a datagram of its own, and its file changes only where that block lies |
| `Runs.DoneGrowsInRuns` | cmd/artigate/diodewire.go:708-767 | Over whole runs: while a transfer is active its done set and its byte count only grow, in the same temporary file |
| `Beside.ReceiveBeside` | cmd/artigate/diodewire.go:482-558 | A datagram changes no transfer but its own and, in the directory, only temporary names no other transfer has and the names of its own file |
| `Beside.OtherUntouched` | cmd/artigate/diodewire.go:482-558 | So a datagram of another transfer, of another file, leaves a transfer, its bytes, its partial and its landed file exactly as they were |
| `Beside.SweepSpares` | cmd/artigate/diodewire.go:1106-1132 | A sweep at which a transfer is not stale leaves it and its bytes as they were, in any visiting order and whichever others it expires |
| `Beside.ReapKeeps` | cmd/artigate/diodewire.go:942-962 | Reaping does not remove a state younger than the retention nor its partial |
| `Beside.SweepUntouched` | cmd/artigate/diodewire.go:942-962 | Nor does a whole sweep, whatever it expires beside |
| `Remembering.RememberedLongEnough` | cmd/artigate/diodewire.go:1078-1094 | An ended transfer stays remembered for ten minutes unless 4096 further transfers end in that time, after any earlier run with a clock that does not go back |
| `Gates.LimitMeans` | cmd/artigate/diode.go:90-101 | Exactly the three files of a bundle have a size limit: a signature 4 KiB, a manifest 64 MiB, an archive 64 GiB |
| `Gates.NamesMean` | cmd/artigate/diodewire.go:106-131 | The private names of a file, byte by byte, all inside the ".udp-" namespace |
| `Gates.AdmitsMeans` | cmd/artigate/diodewire.go:565-587 | A transfer is admitted exactly if its name is valid and a bundle file of a size within its limit, fewer than 16 are active, and what is stored, less the partial it adopts, with the active transfers and itself, is at most 128 GiB |
| `Gates.CreditAdmits` | cmd/artigate/diodewire.go:579-585 | A file that does not fit beside its own partial is admitted to resume it |
| `Gates.ProbeMeans` | cmd/artigate/diodewire.go:856-874 | Progress is found exactly beside a readable state of this very file with some but not all blocks done, as many as it says, and a partial no longer than the file; and it is what the state says |
| `Gates.StrangerIgnored` | cmd/artigate/diodewire.go:482-558 | A datagram of a transfer that is over, or that announces another file than the active transfer, changes nothing |
| `Gates.OpensWith` | cmd/artigate/diodewire.go:589-630 | What a transfer starts with: the bytes and progress of an adopted partial, or, if there is none or it cannot be adopted, an empty file and no progress |
| `Gates.AdoptsMeans` | cmd/artigate/diodewire.go:633-661 | Adopting moves exactly the partial under a fresh temporary name and removes its state |
| `Gates.OpensBlock` | cmd/artigate/diodewire.go:675-734 | A block is opened exactly if, among 32 open ones, a lower one can be given up, and its shards then fit the 64 MiB of the transfer and the 256 MiB of all |
| `Gates.SameBlock` | cmd/artigate/diodewire.go:675-706 | An open block takes a shard only of the same geometry |
| `Gates.CompletesWhen` | cmd/artigate/diodewire.go:498-517 | A shard completes its block exactly if it is new and the block then has as many as its data shards |
| `Gates.RebuildsWhen` | cmd/artigate/diodewire.go:780-800 | Received data shards are used as they are and missing ones as rebuilt; there are none exactly if some are missing and the library fails, gives too few, or one of another size |
| `Gates.FailsWhen` | cmd/artigate/diodewire.go:749-767 | A block that cannot be rebuilt, or written with the writes that succeed, fails its transfer: it is over, remembered, and its file gone |
| `Gates.LandsWhen` | cmd/artigate/diodewire.go:1021-1057 | The directory after a finished transfer, for every answer of the operating system: the file under its name and its partial gone, or only the temporary file gone |
| `Gates.PersistsWhen` | cmd/artigate/diodewire.go:889-940 | What an expired transfer leaves: a partial with its state, exactly if it has some but not all blocks, nothing better is kept and every step works; else nothing of its own |
| `Gates.StateMeans` | cmd/artigate/diodewire.go:876-903 | The state beside a partial records the transfer's own fields and exactly its done blocks |
| `Gates.ExpiresWhen` | cmd/artigate/diodewire.go:1110-1132 | A sweep ends exactly the transfers it visits that were silent for more than 90 seconds |
| `Gates.ForgetsWhen` | cmd/artigate/diodewire.go:1110-1132 | It forgets exactly the ended transfers of more than ten minutes ago |
| `Gates.ReapMeans` | cmd/artigate/diodewire.go:946-962 | It removes exactly the listed states of more than 24 hours ago, each with its partial, and nothing else |
| `Delivery.Recovered` | cmd/artigate/diodewire.go:780-800 | Any `dataShards` distinct shards of a block give back its data shards |
| `Delivery.WriteShardsWhole` | cmd/artigate/diodewire.go:753-761 | The shard-by-shard writes of a block are one write of its bytes at its offset |
| `Delivery.FaithfulWrite` | cmd/artigate/diodewire.go:749-767 | Writing one block leaves the bytes of all blocks already written as they were |
| `Delivery.AllFaithful` | cmd/artigate/diodewire.go:314-379 | A file faithful on every block is the source, byte for byte |
| `Progress.ShardProgress` | cmd/artigate/diodewire.go:498-517 | One more shard of a transmission leaves the state that the larger set of received shards determines |
| `EndToEnd.OpeningStep` | cmd/artigate/diodewire.go:534-661 | The first datagram of an attempt opens a transfer holding exactly what an earlier attempt kept |
| `EndToEnd.EndToEndDelivery` | cmd/artigate/diodewire.go:314-379 | Whatever order the datagrams of a transmission arrive in, with any losses, duplicates and corrupted ones, among datagrams of other transfers and any number of sweeps that may expire those, as long as nothing of this transfer expires and opened blocks stay within the budgets: the transfer's state is the one the set of received shards determines, and the file has landed, equal to the source, exactly when every block has `dataShards` of them |
| `EndToEnd.LossyInOrderDelivery` | cmd/artigate/diodewire.go:708-734 | Among the same other traffic and sweeps, a transmission received in block order with at most `parityShards` losses a block lands the file, with no assumption on the budgets but that the other transfers leave room for one block |
| `Resuming.PersistKeepsProgress` | cmd/artigate/diodewire.go:885-920 | Persisting an expired attempt keeps exactly its whole blocks, with their bytes, for the next one |
| `Resuming.SweepPersists` | cmd/artigate/diodewire.go:1106-1132 | The sweep that expires an attempt keeps exactly its whole blocks, whatever other transfers it expires and in whatever order, and leaves no transfer of the file active |
| `Convergence.Round` | cmd/artigate/diodewire.go:817-934 | One attempt, among other traffic and sweeps before and during it, and the sweep that expires it, either deliver the file or leave exactly the whole blocks for the next attempt: the done set never shrinks between attempts |
| `Convergence.Converges` | cmd/artigate/diodewire.go:817-934 | Over any number of attempts, with any sweeps within the retention and other traffic between them, the kept blocks are those that had enough shards in some attempt, and the file lands as soon as these are all of them |
| `Convergence.CrashWhilePersisting` | cmd/artigate/diodewire.go:905-920 | A crash between the two directory operations of persisting makes the next probe fail if and only if no usable file of an older partial had that name; before and after them state and bytes agree |
| `Convergence.StaleStateAfterCrash` | cmd/artigate/diodewire.go:905-920 | A concrete crash after which the state describes the bytes of an older partial |
| `Convergence.FailedAdoption` | cmd/artigate/diodewire.go:614-661 | A failed adoption leaves the partial and its state where they are, as the comment says, if and only if it was not the reopening after the rename that failed; then both are gone |
| `Convergence.PartialLost` | cmd/artigate/diodewire.go:614-661 | A concrete directory and such a failure after which it is empty |
| `Convergence.HashGate` | cmd/artigate/diodewire.go:1025-1057 | A finished transfer lands if and only if its blocks add up to its size and the hash is the announced one; otherwise only its temporary file disappears |
| `ArtifactGraph.RequiredGraph.DownloadBlobs` | cmd/artigate/container.go:1807-1827 | One file a path, covering every blob; a failure names its blob: one that is not well-formed, or one that at this point was unavailable or came damaged |
| `ArtifactGraph.RequiredGraph.StageArtifact` | cmd/artigate/container.go:1732-1783 | Accepts exactly the acceptable manifests (`ArtifactGraph.AcceptableMeans`), and fails otherwise only where the collect was cancelled at this document, it could not be written, or a blob it names itself was unavailable or damaged; the record lists of an index its children, else exactly the config and the layers, and the files hold each of these and the document |
| `ArtifactGraph.AcceptableMeans` | cmd/artigate/container.go:1732-1763 | A manifest is acceptable exactly if its type is a document's, it parses, its subject is valid and the one asked about, or absent where none is required, and its children, or else its config and layers, are well-formed |
| `ArtifactGraph.RecordDescribes` | cmd/artigate/container.go:1764-1783 | The record of a manifest: its own digest, type, size and tag; the subject asked about, or the one it declares; of an index its children, else exactly its config and layers |
| `ArtifactGraph.RequiredGraph.Stage` | cmd/artigate/container_graph.go:152-182 | Depth-first staging keeps the graph consistent and leaves the collection alone, also on an error; everything staged is the record of what a request since the root gave, and is reached from the root. Every failure is explained by these: the last request, for a child of a staged record, was not served, or gave something that its entry contradicts, that is unacceptable, that could not be written, whose blob was unavailable or damaged, or at which the collect was cancelled; a cycle, a child below a path that is as long as may be, the bounds with a child still lacking, or a child entry that contradicts the record there is. It ends within depth 16 and asks for each child of a document at most once |
| `ArtifactGraph.RequiredGraph.StageChild` | cmd/artigate/container_graph.go:184-214 | A child is complete afterwards: recorded with the size and media type its descriptor names, whether found before, staged before or fetched now |
| `ArtifactGraph.CommitKeeps` | cmd/artigate/container_graph.go:139-148 | Committing a complete graph to a consistent collection gives a consistent collection |
| `ArtifactGraph.EverythingReached` | cmd/artigate/container_graph.go:152-214 | Everything a graph staged is reached from its root by child entries, in the collection it is committed to |
| `ArtifactGraph.RootedEnter` | cmd/artigate/container_graph.go:171-178 | Staging a document that is the root or a child of something staged keeps everything, finished or not, reached from the root |
| `ArtifactGraph.Collector.CollectGraph` | cmd/artigate/container_graph.go:128-150 | All or nothing: on an error the records, their order, the files and the staged paths are unchanged, and the evidence is that of the manifest just obtained: what was staged below it, what the requests gave and what the collection held; on success the manifest has exactly its record, earlier records are unchanged, what is added is exactly reached from the manifest, and the collection is closed under children of matching size and media type with children first |
| `ArtifactGraph.Collector.FetchManifest` | cmd/artigate/container.go:866-917 | What an answer counts as: a manifest that is accepted has a document type and hashes to its digest, which is the reference when that is a digest |
| `ArtifactGraph.TruthfulAsk` | cmd/artigate/container.go:1596-1645 | One more request that there is need for, and not for a reason used before, leaves every record one of a document that a request gave |
| `ArtifactGraph.CommittedTrue` | cmd/artigate/container_graph.go:139-148 | A committed graph adds only records of documents that requests gave |
| `ArtifactGraph.RefusalStays` | cmd/artigate/container.go:1588-1619 | Why an artifact was refused stays right whatever is asked for and collected later |
| `ArtifactGraph.Collector.Record` | cmd/artigate/container.go:1700-1728 | Afterwards the manifest just obtained has exactly its record, is the image itself, or was refused on evidence that the requests made and the records held give; records of earlier artifacts stay as they are, except that its own gains the tag if it had none |
| `ArtifactGraph.Collector.AddByTag` | cmd/artigate/container.go:1621-1645 | Unless a bound was reached before, the tag was asked for, and what that request gave is recorded, the image itself, or refused on evidence |
| `ArtifactGraph.Collector.AddDescriptor` | cmd/artigate/container.go:1647-1696 | A listed referrer or attestation is recorded, the image itself, or refused: because the request for it was not served, because a bound was reached before it was asked for, or on evidence about its graph; it is asked for at most once for each listing and only within the budget |
| `ArtifactGraph.Collector.DiscoverSubject` | cmd/artigate/container_graph.go:96-114 | Unless a bound was reached or the collect cancelled, whatever the registry answers, every referrer listed for the subject and every cosign tag of it is recorded, skipped or refused on evidence; nothing is asked for about a subject that was visited before |
| `ArtifactGraph.Collector.Discover` | cmd/artigate/container_graph.go:86-114 | The breadth-first walk over a list that grows while it is walked ends; unless a bound was reached or the collect cancelled, every referrer and tag of the image, of its index and of every artifact found is handled so |
| `ArtifactGraph.CollectImageArtifacts` | cmd/artigate/container.go:1530-1549 | Whatever the registry answers: at most 64 artifacts, each digest listed once, after everything it requires, with all its files, and each saying what a document that a request gave says: its children, or its config and its layers, its subject and its size, its tag seen to point to it; at most 256 requests, each for a tag, referrer, attestation or child of something obtained before, and no two for the same reason; an image that names a subject of its own is listed or refused, so is every attestation of its index; and below the bounds, unless cancelled, no referrer or tag of the image, its index or anything listed is missing without evidence that these requests and this list give |
| `Repository.Retain` | cmd/artigate/container_index.go:201-216 | Exactly the artifacts observed before or now are kept, each digest once if it was, the newest observation of a digest replacing the older |
| `Repository.PreserveMoved` | cmd/artigate/container.go:2168-2179 | When a tag moves, the record it had is appended without its tag, exactly if no untagged record serves its digest; when it does not, nothing changes |
| `Repository.AddImage` | cmd/artigate/container.go:2140-2150 | One image joins the list in place: keys stay unique, exactly its served digest is added, its tag shows it and every other tag what it showed; observations of artifacts stay with every key it does not move, and none is kept with an image of another digest |
| `Repository.MergeImages` | cmd/artigate/container.go:2135-2163 | The whole loop: unique keys, the union of the served digests, each tag the import names showing its last image, and no observation lost of an image whose key has not moved; independent of the order the final sort chooses |
| `Repository.MergeReports` | cmd/artigate/container_index.go:82-124 | Fails exactly if a report is of an artifact that is neither known nor readable; known artifacts stay as they are, each new one is what its first report's stored manifest says, each tag points to the last artifact reported with it |
| `Repository.Validate` | cmd/artigate/container_index.go:93-103 | Accepts exactly the artifact maps closed under children of matching size and media type |
| `Repository.Index.Import` | cmd/artigate/container.go:2111-2133 | All of an import, exactly if its artifacts are readable and their graph is complete, or nothing of it |
| `Repository.Index.ImportAll` | cmd/artigate/container.go:2080-2133 | Importing one after another in place yields a history |
| `Repository.ServedResolves` | cmd/artigate/container.go:2393-2410 | Every digest a repository's images serve resolves to itself |
| `Repository.TagResolves` | cmd/artigate/container.go:2393-2434 | After an import a tag it names resolves to what it says, an artifact tag winning over an image tag, and every other tag as before |
| `Repository.NothingIsLost` | cmd/artigate/container.go:2101-2179 | After any sequence of imports, failed ones among them: keys unique, artifacts closed and only growing, artifact tags pointing to stored artifacts, and the served digests exactly those ever imported |
| `Repository.ServedForever` | cmd/artigate/container.go:2108-2110 | The served digest of every image of a successful import resolves ever after |
| `Repository.ManifestForever` | cmd/artigate/container.go:2108-2110 | So does the manifest digest of an image, kept with an index or not, as long as no image of the history is served under the same digest with another manifest |
| `Repository.TagIsNewest` | cmd/artigate/container.go:2108-2133 | After any sequence of imports a tag resolves to what the newest successful import naming it said |
| `Repository.TagServesImage` | cmd/artigate/container.go:2393-2434 | After any sequence of imports, when the newest that says anything of a tag names it last with an image, and with no artifact, the tag resolves to the digest and media type of the index the image is kept with, or, without one, of its manifest |
| `Repository.TagServesArtifact` | cmd/artigate/container.go:2393-2410 | When that import has an artifact with the tag, the tag resolves to the last of these |
| `Repository.ObservationsLast` | cmd/artigate/container.go:2135-2179 | After any sequence of imports an image keeps every artifact it was ever seen with, for as long as no import moves its key to another digest |
| `Repository.NothingInvented` | cmd/artigate/container.go:2135-2179 | After any sequence of imports every image is one that was imported, apart from its tag, and keeps no artifact that none of its served digest was seen with |
| `DebianVersion.CompareParts` | cmd/artigate/apt.go:578-628 | The two-index loop never reads outside either string, ends, and returns the comparison of the two parts' keys |
| `DebianVersion.CompareNonDigits` | cmd/artigate/apt.go:593-602 | Advances over equal text only; a difference it returns is that of the keys |
| `DebianVersion.CompareDigits` | cmd/artigate/apt.go:606-628 | Compares the numeric values of the two digit runs, whatever their lengths and leading zeros |
| `DebianVersion.FirstCharactersDecide` | cmd/artigate/apt.go:554-575 | After any common beginning a tilde sorts before anything, even the end, the end before letters, letters before other characters |
| `DebianVersion.NumbersDecideAfter` | cmd/artigate/apt.go:604-628 | After any common text the numeric values decide |
| `DebianVersion.EqualWhenSame` | cmd/artigate/apt.go:578-589 | Two parts compare equal exactly when their canonical keys are the same |
| `DebianVersion.OrderChains` | cmd/artigate/apt.go:525-535 | The order of versions is transitive, strictly when one step is strict |
| `DebianVersion.OrderFlips` | cmd/artigate/apt.go:525-535 | Swapping the arguments negates the order, so any two versions are comparable |
| `DebianVersion.OrderEqual` | cmd/artigate/apt.go:525-535 | Versions are equal in the order exactly when epoch and the canonical keys of both parts agree |
| `DebianVersion.CompareVersions` | cmd/artigate/apt.go:525-552 | The code computes the prescribed order while the difference of the epochs fits an int, and its reverse otherwise |
| `DebianVersion.EpochsWrap` | cmd/artigate/apt.go:525-550 | Two version strings, read with their epochs, that the code puts the wrong way round |
| `DebianVersion.KeysIdentify` | cmd/artigate/apt.go:509-510 | Two packages share a map key exactly when name and architecture agree |
| `DebianVersion.FilterNewest` | cmd/artigate/apt.go:505-520 | One entry a name and architecture, in the order of their first occurrence; it is the one kept, and when the epochs can be subtracted, the earliest of the newest of its name and architecture |
| `DebianVersion.NewestDetermined` | cmd/artigate/apt.go:500-520 | That leaves no choice: two results with these properties are the same |
| `DebianVersion.NewestIff` | cmd/artigate/apt.go:505-535 | What is kept is the newest of its name and architecture for every list of packages with versions among given ones, exactly if the epochs of any two of these can be subtracted |
| `Sequences.Merge` | cmd/artigate/bundle.go:442-464 | The merged ranges, the last one extended in place, stand for exactly the same numbers; they are in normal form if and only if no range ending at the greatest int64 precedes another in sorted order |
| `Sequences.NormalUnique` | cmd/artigate/bundle.go:442-464 | A set of numbers has exactly one normal form |
| `Sequences.Missing` | cmd/artigate/bundle.go:487-517 | Exactly the numbers between the bounds that are not present, as maximal ranges in order, without leaving int64, whatever order the map is walked in |
| `Sequences.Expand` | cmd/artigate/bundle.go:466-477 | Where it ends (`Sequences.EndsIff`): it lists the numbers in order, up to the limit, if and only if no range ending at the greatest int64 is expanded to its end with room left; otherwise negative numbers follow |
| `Sequences.EndsIff` | cmd/artigate/bundle.go:466-477 | The two loops end, for every list of ranges, if and only if there is a limit or no range ends at the greatest int64 |
| `Sequences.ParseSpec` | cmd/artigate/bundle.go:386-440 | Refuses exactly empty and malformed specifications; otherwise the ranges stand for the numbers the parts name |
| `Sequences.PrintedReadsBack` | cmd/artigate/bundle.go:197-202 | Printing ranges joined by commas and reading the text names the same ranges |
| `Sequences.Reexport` | cmd/artigate/bundle.go:386-517 | The report of what is missing, printed, read back and expanded, stands for exactly the missing numbers; each is listed once and in order, up to the limit of 10000, if and only if the greatest int64 is not missing or the limit is reached before it |
| `Crates.VersionsOrdered` | cmd/artigate/crates.go:540-554 | The order of versions is a total preorder when that of pre-release tags is |
| `Crates.CompareMeans` | cmd/artigate/crates.go:540-554 | The order says what is older: by the first component that differs, then a pre-release before the release, then by the tags |
| `Crates.ComparatorsMean` | cmd/artigate/crates.go:682-728 | What the comparators of one version mean, on components: below, above, at least, at most, and equal in all that is given |
| `Crates.RequirementMeans` | cmd/artigate/crates.go:662-680 | A requirement takes what all its comparators take, and a pre-release only if one of them names one of the same components |
| `Crates.DepWantsMean` | cmd/artigate/crates.go:1128-1146 | The edges that count: none of development, optional ones if asked for, to a valid name, that of the package where the edge renames it |
| `Crates.EntriesMean` | cmd/artigate/crates.go:1006-1027 | The releases of a crate: the lines of its file with a valid name and version and a checksum, in order |
| `Crates.CaretMeans` | cmd/artigate/crates.go:682-751 | The interval of a caret comparator: nothing older, the leftmost component that is not zero kept; and, against that, the pre-releases of the version it excludes |
| `Crates.TildeMeans` | cmd/artigate/crates.go:682-734 | The same of a tilde comparator |
| `Crates.MatchesAsPromised` | cmd/artigate/crates.go:665-697 | A whole requirement matches as its comparators promise, exactly except on the pre-releases of a version that one of them excludes; always if it has one comparator |
| `Crates.SlipsIn` | cmd/artigate/crates.go:665-697 | A requirement and a version it lets in against that promise |
| `Crates.MaxWhere` | cmd/artigate/crates.go:1110-1126 | Finds the first of the highest entries that are not yanked, parse and are wanted, or nothing exactly when there is none |
| `Crates.Select` | cmd/artigate/crates.go:1072-1106 | Which release a demand gets, pinned, by requirement or newest, and exactly when it gets none; a pinned one is of that version, any other is not yanked and meets the requirement |
| `Crates.SatisfiesMeans` | cmd/artigate/crates.go:1055-1106 | A release answers a demand exactly if it is of the crate and the pinned version, or else meets the requirement, or else is any |
| `Crates.Resolver.Satisfied` | cmd/artigate/crates.go:1055-1066 | Answers exactly whether a selected release meets a requirement |
| `Crates.Resolver.Pick` | cmd/artigate/crates.go:1030-1050 | A demand fails only if the index has no release for it; otherwise it is served by a selected release afterwards; nothing is selected twice, nor for a requirement already met |
| `Crates.Resolver.Resolve` | cmd/artigate/crates.go:917-943 | The worklist ends; each name and version is selected once; if the demands run out before the cap and index entries carry the name asked for, each of them, the edges of every selected release included, is served or reported as failed, and only demands without a release are reported; every release was demanded, and for a requirement only if none selected before met it |
| `Conda.VersionsOrdered` | cmd/artigate/conda.go:296-405 | The order of versions is a total preorder: epoch, then segments padded with zero, each as runs padded with zero, tags below numbers, "dev" lowest |
| `Conda.EpochsDecide` | cmd/artigate/conda.go:296-319 | The epochs decide first, by their numeric values |
| `Conda.FirstRunsDecide` | cmd/artigate/conda.go:340-405 | Then the first runs that differ, missing ones reading as zero: numbers by value, a tag below every number and every missing run, "dev" below every other tag, other tags as text |
| `Conda.NumbersByValue` | cmd/artigate/conda.go:391-405 | Runs of digits compare by the numbers they stand for, of whatever length and with whatever leading zeros |
| `Conda.EpochCut` | cmd/artigate/conda.go:314-319 | The epoch is what stands before the first "!", zero without one |
| `Conda.FieldsCut` | cmd/artigate/conda.go:323-327 | A dot, an underscore and a hyphen each cut a version into segments and are dropped |
| `Conda.FieldWhole` | cmd/artigate/conda.go:323-327 | Text without a separator is one segment |
| `Conda.RunsJoin` | cmd/artigate/conda.go:353-363 | Joined again the runs are the segment; each is of digits or of other characters, in turns |
| `Conda.SegmentRuns` | cmd/artigate/conda.go:353-363 | The loop cuts a segment into its maximal runs of digits and of other characters |
| `Conda.CompareSegments` | cmd/artigate/conda.go:340-348 | The loop over both lists of runs never looks into an empty run, ends, and computes the padded order |
| `Conda.CompareVersions` | cmd/artigate/conda.go:296-310 | The loop over both lists of segments ends and computes the order of versions |
| `Conda.EqualMeetSame` | cmd/artigate/conda.go:501-520 | Versions that compare equal meet the same comparators, but for the prefix ones |
| `Conda.CandidatesOrdered` | cmd/artigate/conda.go:1327-1338 | The order of candidates is a strict total order on those of different files |
| `Conda.Pick` | cmd/artigate/conda.go:1296-1321 | Of the candidates that suit, one of the highest version and of that the highest build number, refused without a checksum |
| `Conda.BestIsNewest` | cmd/artigate/conda.go:1327-1338 | Nothing that suits has a higher version than the best, or the same and a higher build number, or that too and an earlier subdirectory, or file name |
| `Conda.SuitsMeans` | cmd/artigate/conda.go:488-495 | A candidate suits exactly if it meets all constraints and has the build, if one is named |
| `Conda.ComparatorsMean` | cmd/artigate/conda.go:497-520 | What the comparators mean, from the order: each says below, above, equal or not |
| `Conda.PrefixMeans` | cmd/artigate/conda.go:497-504 | A prefix takes the version itself and what continues it after a dot, and nothing else |
| `Conda.BestAnyOrder` | cmd/artigate/conda.go:1323-1338 | The choice does not depend on the order the candidates are listed in |
| `Conda.ResolvedAnyOrder` | cmd/artigate/conda.go:1267-1290 | Nor does anything a resolution selects or reports |
| `Conda.RunSettles` | cmd/artigate/conda.go:1267-1290 | A resolution ends; each name is selected at most once, for a demand that is a spec or an edge of a candidate selected before, and as the best candidate for that demand; if the demands run out, each of them, the edges of every selected candidate included, has its name selected, or has no choice and was reported; and only demands without a choice and edges of selected candidates that do not parse are reported |
| `Conda.Resolver.Resolve` | cmd/artigate/conda.go:1267-1290 | The loop in place computes that resolution |
| `Alpine.CompareNums` | cmd/artigate/apk.go:432-447 | Components compare as the keys of the lists: the first as a number, later ones with a leading zero as text below all others |
| `Alpine.CompareSuffixes` | cmd/artigate/apk.go:449-465 | Suffix lists compare as their keys, a bare version counting as rank 0 |
| `Alpine.CompareVersions` | cmd/artigate/apk.go:412-427 | Versions that parse compare as their keys, others as text |
| `Alpine.ComponentsDecide` | cmd/artigate/apk.go:432-447 | The first components that differ decide: as numbers, of up to 18 digits, but as text without trailing zeros where a later one begins with a zero; then their number |
| `Alpine.VersionIntMeans` | cmd/artigate/crates.go:520-535 | A component as a number: the value of up to 18 digits, zero for a longer one |
| `Alpine.LettersDecide` | cmd/artigate/apk.go:419-421 | Of the same components the letter decides |
| `Alpine.SuffixesDecide` | cmd/artigate/apk.go:449-465 | Then the first suffixes that differ, by rank and number, one that only one version has by the sign of its rank |
| `Alpine.ReleasesDecide` | cmd/artigate/apk.go:426 | And last the package release |
| `Alpine.ParsedChain` | cmd/artigate/apk.go:412-427 | The order of versions that parse is transitive |
| `Alpine.OrderFlips` | cmd/artigate/apk.go:412-427 | Swapping the arguments negates the order, so any two versions are comparable |
| `Alpine.TransitiveIff` | cmd/artigate/apk.go:412-427 | With the textual fallback the order of a set of versions is transitive exactly if none that does not parse lies, as text, between two that do and are the other way round |
| `Alpine.GoesRound` | cmd/artigate/apk.go:412-416 | Three concrete versions, each below the next and the last below the first |
| `Alpine.FilterNewest` | cmd/artigate/apk.go:1303-1321 | One stanza a name, in the order of their first occurrence: the one kept of it |
| `Alpine.NamesMean` | cmd/artigate/apk.go:1303-1321 | The names kept are those of the stanzas, each once, in the order of their first stanzas |
| `Alpine.NewestIff` | cmd/artigate/apk.go:1303-1321 | What is kept of a name is its highest version for every list of stanzas, exactly if the versions in it are of such a set |
| `Pagination.TagsOrdered` | cmd/artigate/container_pagination.go:75-82 | The order of tags is a strict total order |
| `Pagination.Search` | cmd/artigate/container_pagination.go:84-90 | Finds where a listing continues after a cursor, whether or not the cursor is still listed |
| `Pagination.PaginateTags` | cmd/artigate/container_pagination.go:84-95 | A page: the next tags after the cursor, as many as the limit allows, with a cursor exactly if tags are left |
| `Pagination.PaginateReferrers` | cmd/artigate/container_pagination.go:97-133 | The same within the size of a response: never more, at least one descriptor if any is left, cut only where the next does not fit, and an error exactly if one does not fit by itself; the body encodes exactly the page |
| `Pagination.NothingMissed` | cmd/artigate/container_pagination.go:53-95 | Following the cursors visits nothing twice and in order, and, though the listing changes between requests, misses nothing that is in it throughout |
| `Pagination.Ends` | cmd/artigate/container_pagination.go:84-133 | On a listing that does not change, following the cursors ends, with any limits, after everything was listed once |
| `Integrity.RepairIsIdempotent` | cmd/artigate/container_integrity.go:151-189 | A repaired repository is sound, gives the same index again, and has nothing to report |
| `Integrity.RepairNeverWidens` | cmd/artigate/container_integrity.go:217-240 | A rebuilt index holds only artifacts, blobs, children and tags that were recorded; all its blobs verify and its children are in it |
| `Integrity.Checker.CheckBlob` | cmd/artigate/container_integrity.go:478-494 | The cache of verified blobs never changes an answer |
| `Integrity.Checker.CheckPayload` | cmd/artigate/container_integrity.go:411-443 | Accepts exactly the manifests whose config and layers are authorized and verify, with everything else authorized |
| `Integrity.Checker.CheckChildren` | cmd/artigate/container_integrity.go:341-363 | Accepts exactly the children that the last authorization of their digest matches |
| `Integrity.Checker.Gather` | cmd/artigate/container_integrity.go:217-262 | The records of the images and of the index, joined, or a refusal exactly if they disagree |
| `Integrity.Checker.SetTags` | cmd/artigate/container_integrity.go:310-322 | Collects tags exactly if every one is valid and names one digest |
| `Integrity.Checker.CheckRepository` | cmd/artigate/container_integrity.go:151-189 | Which issues are reported exactly when; all can be repaired exactly if the repository is sound (`Soundness.SoundMeans`); there are none exactly if, besides, its index is the rebuilt one |
| `Soundness.SoundMeans` | cmd/artigate/container_integrity.go:151-189 | What makes a repository sound, read off its file and the disk: a valid name, images, records that can be joined, everything these and the images name on disk and authorized, complete graphs and unambiguous tags |
| `Soundness.ImageMeans` | cmd/artigate/container_integrity.go:365-432 | A sound image: its document; if it is no index, its config and every layer on disk and recorded, and no recorded blob that is not on disk or not named; and an index it is kept with is on disk and lists it |
| `Soundness.ArtifactMeans` | cmd/artigate/container_integrity.go:341-363 | A sound artifact: its document; of an index each child allowed by the last entry of its digest, else config and layers on disk and recorded |
| `Soundness.RecordsMean` | cmd/artigate/container_integrity.go:217-262 | Records can be joined exactly if their digests are valid and agree on type and size, and the index, if there is one, is of version 1 and names each under its digest; joined they list all that any of them lists |
| `Soundness.TagsMean` | cmd/artigate/container_integrity.go:264-322 | Tags are in order exactly if each is valid and names one digest, those of an index a record |
| `Soundness.RebuiltMeans` | cmd/artigate/container_integrity.go:264-363 | The rebuilt index: one entry a record, made of its document, and the tags of the index there was or else of the artifacts |
| `Soundness.CleanMeans` | cmd/artigate/container_integrity.go:324-333 | A repository is clean exactly if it is sound and its index is the rebuilt one |
| `Integrity.Checker.Run` | cmd/artigate/container_integrity.go:67-98 | Repairs every repository or none; it reports success exactly if all are clean afterwards |
| `Integrity.RunsAreIdempotent` | cmd/artigate/container_integrity.go:560-582 | A second repair of a root changes nothing and finds it clean |
| `Splitting.Split` | cmd/artigate/lowside.go:1444-1477 | Fails exactly if some file does not fit a bundle alone; else every file to deliver is in one chunk, every chunk within the limit, and none could take the first file of the next |
| `Splitting.WithinBudget` | cmd/artigate/lowside.go:1500-1532 | Once all chunks but the last are delivered, the final bundle is within the limit |
| `Splitting.EstimateIs` | cmd/artigate/lowside.go:1426-1442 | The estimate of a file in an archive: its size, a 128th of it and 2048 bytes; of the archive itself 4096 |
| `Exporting.LowSide.ExportSequenced` | cmd/artigate/lowside.go:1345-1385 | The outcome for every fate of each step: the bundle is written exactly if allocating and forgetting succeeded and the writing took effect, nothing is recorded unless the number was committed, and then exactly what the recording had its effect on; it crashes exactly if a step did. Whatever fails, the store says nothing untrue about the bundles written |
| `Exporting.LowSide.ExportParts` | cmd/artigate/lowside.go:1500-1541 | Content parts are within the limit, and what they delivered is marked only once the receiver has it |
| `Exporting.LowSide.ExportIfNew` | cmd/artigate/lowside.go:1225-1311 | The bundles pack exactly the files that are no references, neither given as such nor, unless the export is forced, known to the store if the look at it succeeds, so that a forced export is a full one; it is skipped exactly if there are none and the metadata need not go; the last bundle lists all files with the metadata. If an export is skipped or done, the receiver has every file, replaceable ones as named, an ecosystem bundle has named each, and it knows all metadata; every bundle is within the limit; if no step fails and each file fits a bundle, it is skipped or done, and the same export again finds nothing new |
| `Exporting.WrittenOk` | cmd/artigate/exported.go:28-36 | What the store forgets before a bundle is written is enough for it to stay true once it is, recorded or not |
| `Exporting.RecordedOk` | cmd/artigate/exported.go:283-317 | Recording a bundle's files and the latest contents of the replaceable ones keeps the store true |
| `Exporting.SkipIsRight` | cmd/artigate/exported.go:5-26 | If the store knows all files, none pending, and all metadata, the receiver needs nothing |
| `Exporting.ClearedOk` | cmd/artigate/exported.go:428-432 | Every file a content part delivered stays pending until an ecosystem bundle names it |
| `Exporting.NoReferenceDangles` | cmd/artigate/highside.go:1976-2003 | A receiver that takes the bundles in order, those of failed exports too, refuses none for a reference to an earlier file |

## Left out

- Wire.RoundTrip: assumes that two int fields of a packet add up without wrapping a 64-bit int, which every plan and every parsed header guarantees.
- Transmit.SendDiodeFile: requires that rounding the announced size up to a block does not wrap int64; the progress of a reader that returns short reads is one read of the whole block.
- Landing.OverlayTwice: a write that fails changes nothing; a partial write before an error is not modelled, as the file is discarded.
- Assembler.Assembler.AdmitNewTransfer: how the quota usage is measured is a parameter, as are the other answers of the operating system.
- Assembler.Assembler.PersistPartial: the text of the state file (JSON, base64, hexadecimal) is not modelled, its content is; writing it is one atomic step.
- Runs.LandingSafety: a crash falls between directory operations, each of which is atomic and durable; modification times exist on state files only.
- Machine.Adopt: removing a file never fails; the code ignores the errors of `os.Remove`, as of the resume state after an adoption.
- EndToEnd.EndToEndDelivery: other transfers at work at the same time are of other files; a datagram that comes after the file landed finds its transfer remembered (`Remembering.RememberedLongEnough` says when it is).
- Convergence.Converges: an attempt that does not deliver is expired by a sweep before the next begins, and its progress is persisted without a failure or a crash; those are `Convergence.CrashWhilePersisting` and `Runs.LandingSafety`.
- Remembering.RememberedLongEnough: the clock does not go back.
- Catcher.Serve: recovery from panics is not modelled; none of the modelled code can fail on an index, a nil pointer or a conversion.
- Catcher.ReceiveOne: heartbeat datagrams are handled elsewhere and skipped.
- ArtifactGraph.Collector.CollectGraph: annotations and artifact types of the records, and files already written to the staging directory when a graph is refused, are not modelled; the registry's answers are a parameter, by reference and number of requests made.
- ArtifactGraph.Collector.Discover: listing the referrers of a subject is one answer of the registry; its own requests are not counted, as in the code.
- Repository.MergeImages: the order the final sort gives the images is not modelled, only that it permutes them.
- Repository.ManifestForever: an index digest that comes back with another manifest replaces the record, and with it the earlier manifest digest; content-addressed indexes exclude it.
- Repository.Index.Import: the upgrade of indexes in the old format is not modelled; reading a stored manifest is a parameter.
- DebianVersion.CompareVersions: trimming white space is a parameter.
- Crates.Resolver.Resolve: parsing versions and requirements, and the order of pre-release tags, are parameters; the index answers the same for a crate throughout a resolution; downloads are not modelled.
- Sequences.Expand: the method is called only where it ends; that it does not end anywhere else is a lemma about its loops, turn by turn.
- Sequences.ParseSpec: trimming white space is a parameter, of which only the round trip assumes anything.
- Conda.CompareVersions: lower-casing is a parameter; parsing specifications is not modelled, and candidates are indexed under their own name.
- Conda.Resolver.Resolve: a resolution is for one platform; joining those of several is not modelled.
- Alpine.CompareVersions: the grammar is a parameter, of which only the form of its components is assumed.
- Pagination.PaginateTags: parsing the query and sorting the listing are not modelled; the listing is taken as sorted.
- Integrity.Checker.Run: reading and writing the index file as JSON, unknown fields and the fingerprint that detects a running importer are not modelled; content does not change under its digest.
- Splitting.Split: the order by path is any order; sizes are unbounded.
- Exporting.LowSide.ExportIfNew: one stream, files under different paths; dry runs, cancellation and the migration of older stores are not modelled, nor is a prior file's size; the receiver holds what was last delivered under a path.
- Reed-Solomon arithmetic, SHA-256 and CRC-32: parameters; the delivery theorems assume that any `dataShards` shards of a codeword rebuild its data.
- Counters, log lines, the encoder cache and the completion callback: no effect on what is proved.
- Sockets, multicast, pacing, HTTP, SFTP, signing, the importer and the dashboards.
