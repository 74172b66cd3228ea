# Caribou, modelled in Dafny

Caribou is a key-value store on FPGAs together with the software around it. This project models six pieces of that software and proves what they are for.

1. **Replication** (`NodeProtocol`, `ClusterNode`, `ClusterModel`, `ClusterSafety`, `ClusterTheorems`, `ClusterDelivery`, `ClusterMessages`, `ClusterOrder`, `ClusterStall`, `ClusterWrites`, `ClusterSetup`). One node is a class whose `Process` handles a message the way `Node.process` does. The cluster is a state machine over one leader, its followers and everything that was ever sent; an event is a write or the delivery of any sent message, any number of times and in any order. Safety is proved over every run, convergence over every run that loses nothing: always for one write, and for several exactly when no proposal overtakes the COMMIT before it. `ClusterMessages` says, field by field, what is sent, and that the proposals for a zxid carry the payloads of the writes that came for it. `Wire`, `WireBytes`, `WireRequest` and `Reassembly` model the requests as bytes and the buffer that cuts a stream into requests.
2. **The pattern compiler** (`Regex*`). Parsing, fixing token lengths, moving the accepting state, laying characters out, filling the tables and packing them are methods on arrays, each proved against a function. For patterns of literals, `[abc]`, `[a-z]` and alternatives of equal length, repeated by `+` or followed by `.*`, the packed bytes decode to tables that accept exactly the words of the pattern. `RegexRoom` says on the pattern alone which ones fit, and `RegexAddress` where the hardware finds each bit. For alternatives of different lengths the tables never accept another word, and they accept all words of the pattern when such pieces stand between others (`RegexUneven`).
3. **The column store** (`Column*`, `Bulk*`, `Perturbed*`). `GetRowBatch` and `GetAllRows` move one cursor per column; a scan is proved to be the filtered table, which `ColumnRows` writes out row by row. `GetPerturbedRows` fetches columns in groups of three that the store rotates, in two passes over the same slots, through `GetBulkN`; `PerturbedPages` says which stored elements it asks for and what bytes each column gets.
4. **Rotation** (`Permutations`, `Rotation`, `RotatedData`). The shuffle and its padding, the three families of rotation matrices over the reals, and what rotating a data set keeps.
5. **SHA-256** (`Sha256*`). The class with its sixteen-word window and unbounded integers refines the compression function of section 6.2.2 of FIPS 180-4, which `Sha256Spec` states on 32-bit words with a 64-word schedule. `Sha256Constants` proves its tables from the cube and square roots of the first primes, and `Sha256Answer` the digest of "abc".
6. **Values and arrays in chunks** (`Chunks`, `ChunkRequests`, `ChunkStore`, `ArrayStore`, `ArrayRace`). Splitting values, keys with an index in front, deleting by the stored count, and an array written by any number of workers in any interleaving.

Where the code changes things in place the model is a class or a method on arrays, with a contract that equates the new state with a function of the old one; what the code is for is then proved about the functions.

## Where the code does not keep what it seems to promise

Each of these is proved with an input, and with the exact condition.

- **Cut pages.** Ending a batch at a page end keeps an old byte offset (`processor.go:771-779`). A scan goes wrong in this way if and only if a batch begins inside a page and ends at the end of a page of the same value that is not its last (`ColumnCuts.UncutScanIsTable`, `CursorRightUnlessCut`); `ColumnCutExample.CutScanFails` is such a scan, with wrong pairs of entries and then a failure. Cutting into a page with entries always ends that way, or in the values of the next column (`ColumnSpoils.CutSpoilsScan`).
- **Renaming an accepting state with edges of its own.** `rename_accepting_state` is a swap if and only if that state has no edge to itself or to the last place (`RegexRename.RenameIsSwap`). The two edge arrays still agree if and only if it has equally many of both (`RegexLinked.RenamedMirroredIff`). The parser and the fix-up lead to the bad case for `x(aa|b)c` with four states (`RegexLinked.LinkedRenameBreaks`).
- **A skipped token.** `fix_inequal_tokens` skips the token behind one it removes; all states end with tokens of one length if and only if no two tokens in a row differ from the first (`RegexFixup.FixupEvens`, `RegexTheorem.FixupSkips`).
- **A lost alternative.** When alternatives of different lengths come last, those that the fix-up moves to a new state no longer end in the accepting one: `a(bb|c)` compiles and does not accept `abb` (`RegexUneven.LastAlternativeIsLost`). Between other pieces, without plus or gap, none is lost, and none is ever added (`CompiledAcceptsUneven`).
- **Brackets with several ranges.** `[a-z0-9]` is skipped without a word, as is every bracket with a dash and not exactly two other characters (`RegexMalformed.BracketIsSkipped`).
- **Lengths of ranges.** A state for `[a-z]` gets length 2 although it reads one character (`RegexTheorem.LengthTable`); a first piece with a plus is never active on its own (`RegexTheorem.EntryAlwaysActive`).
- **Arrays of 2^24 elements.** They are accepted, but the last element has the directory's key, and two schedules of two workers leave different stores (`ArrayRace.JobWordsDifferIff`, `FullLengthRaces`).
- **Writes without payload.** The leader throws on them before anything is sent, since the proposal copies a null payload (`Request.java:109`); sixteen bytes are enough (`ClusterWrites.WriteThrowsIff`, `SixteenBytesThrow`). They might as well not be there (`EmptyWritesDropOut`).
- **Overtaken COMMITs.** A proposal that reaches a follower before the COMMIT of the zxid before is never acknowledged, so a run of several writes that loses nothing comes to rest if and only if that never happens (`ClusterOrder.ConvergesIffInOrder`, `StaysBehind`); every two writes have a run in which it does (`ClusterStall.TwoWritesCanStall`).
- **Two nodes.** A cluster of two never commits (`ClusterTheorems.TwoNodesNeverCommit`). Writes that arrive while a zxid is open share it, and only the last one's connection is answered (`LastWriterIsAnswered`).
- **Long values.** `Get` gives back what `set` stored if and only if the value fits one chunk and is not empty (`ChunkStore.GetAfterSetIff`), hence arrays likewise, and an empty array comes back as none (`ArrayStore.ArrayRoundTripIff`).
- **Columns that are not a multiple of three.** Rotating then loses distances (`RotatedData.DistancesKeptIff`); with fewer than three columns the shuffled padding never ends and the ordered one is no column (`Permutations.SmallNeverEnds`, `SmallOrdered`).
- **Requests that do not fit.** A request comes back from its bytes if and only if its payload is whole words and its numbers are unsigned and below 2^32 (`Wire.RoundTripIff`).

`dafny verify dfyconfig.toml` checks the whole project.

## Model

| member | source | states |
|---|---|---|
| ClusterNode.Node.constructor | sw/ClusterManagement/src/ch/ethz/zookeeper/Node.java:49-80 | a new node is at zxid 0 and epoch 1, knows no peer and no leader, and its three tables hold 0 |
| ClusterNode.Node.Process | sw/ClusterManagement/src/ch/ethz/zookeeper/Node.java:221-418 | the fields afterwards, everything written to sockets, and whether an exception escapes are those of `NodeProtocol.Step` on the fields before, for every opcode and every header, with or without payload: it escapes for a write without payload at the leader, an impossible port, an index outside the tables and a proposal from a peer without socket |
| ClusterNode.Node.HandleAddPeer | sw/ClusterManagement/src/ch/ethz/zookeeper/Node.java:234-258 | an impossible port throws before a socket is tried; a refused connection changes nothing; a socket whose buffer cannot be set is kept but not counted |
| ClusterNode.Node.HandleWrite | sw/ClusterManagement/src/ch/ethz/zookeeper/Node.java:270-291 | the leader proposes the payload (`ClusterMessages.WriteIsSent` writes the proposal out) and keeps the connection for the next zxid, or throws before either when there is no payload; a follower does nothing |
| ClusterNode.Node.HandleProposal | sw/ClusterManagement/src/ch/ethz/zookeeper/Node.java:360-386 | an acknowledgement for exactly the next zxid, a sync request for any other, an exception without a socket to answer on |
| ClusterNode.Node.SendProposals | sw/ClusterManagement/src/ch/ethz/zookeeper/Node.java:274-284 | every connected peer gets the proposal once, in slot order, and exactly their table entries become the next zxid |
| ClusterNode.Node.CountVotes | sw/ClusterManagement/src/ch/ethz/zookeeper/Node.java:299-304 | the two loop counters are the sizes of two sets: slots that acked exactly this zxid, slots committed up to it or beyond |
| ClusterNode.Node.SendCommits | sw/ClusterManagement/src/ch/ethz/zookeeper/Node.java:315-328 | COMMIT goes exactly to the connected peers that acked up to this zxid, and only their entries change |
| ClusterNode.Node.HandleAck | sw/ClusterManagement/src/ch/ethz/zookeeper/Node.java:293-354 | an acknowledgement has the effect of `AckPropose`: quorum branch, late branch, ignored, or index out of range |
| ClusterMessages.WriteIsSent | sw/ClusterManagement/src/ch/ethz/zookeeper/Node.java:270-290 | what a write with payload does at the leader, field by field: each connected peer, in slot order, is sent one PROPOSAL with the id and epoch of the leader, its next zxid and the payload of the write; nothing else is sent; only the tables of these peers and the kept connection change |
| ClusterMessages.PeersInOrder | sw/ClusterManagement/src/ch/ethz/zookeeper/Node.java:274-284 | a broadcast goes to the peers in slot order, to none twice |
| ClusterMessages.StepThrowsIff | sw/ClusterManagement/src/ch/ethz/zookeeper/Node.java:221-418 | when an exception escapes, opcode by opcode; then no field has changed and nothing was sent |
| ClusterMessages.StepAnswers | sw/ClusterManagement/src/ch/ethz/zookeeper/Node.java:221-418 | of any message that a step sends: its opcode, id, zxid, epoch and payload, and who gets it, field by field |
| ClusterMessages.PeerIsAdded | sw/ClusterManagement/src/ch/ethz/zookeeper/Node.java:234-258 | what ADDPEER changes, when it throws, and when it changes nothing |
| ClusterMessages.SilentSteps | sw/ClusterManagement/src/ch/ethz/zookeeper/Node.java:226-268 | the opcodes that send nothing and never throw: SETUPPEER, SETLEADER and COMMIT set exactly their fields, every other one nothing |
| ClusterSafety.InitialInv | sw/ClusterManagement/src/ch/ethz/zookeeper/Node.java:49-80 | the cluster invariant (tables, message numbers, quorums, histories) holds before any message |
| ClusterSafety.EventKeepsInv | sw/ClusterManagement/src/ch/ethz/zookeeper/Node.java:270-396 | every event keeps it: a write, or the delivery of any message ever sent, so loss, duplication and reordering are included |
| ClusterSafety.RunKeepsInv | sw/ClusterManagement/src/ch/ethz/zookeeper/Node.java:270-396 | so does every run of events, from any state in which it holds |
| ClusterTheorems.NodesStayClose | sw/ClusterManagement/src/ch/ethz/zookeeper/Node.java:297-353 | over every run: follower zxid <= its committed entry <= its acked entry <= follower zxid + 1; no committed entry above the leader, no acked entry above the next zxid; at or below the leader the two entries are equal |
| ClusterTheorems.CommitsAndAnswersInOrder | sw/ClusterManagement/src/ch/ethz/zookeeper/Node.java:310-339 | over every run each follower is sent COMMIT 1, 2, 3, ... and clients are answered 1, 2, 3, ...: no gap, no repeat |
| ClusterTheorems.CommittedHasQuorum | sw/ClusterManagement/src/ch/ethz/zookeeper/Node.java:297-313 | every committed zxid was acked by more than half of the cluster without counting the leader, and each of those followers is at most one behind it |
| ClusterTheorems.CommittedIffQuorum | sw/ClusterManagement/src/ch/ethz/zookeeper/Node.java:297-313 | over every run from the start a zxid is committed if and only if the followers whose acked entry reached it are more than half of the cluster |
| ClusterTheorems.MajoritiesMeet | sw/ClusterManagement/src/ch/ethz/zookeeper/Node.java:310 | two such majorities share a follower |
| ClusterTheorems.CommittedSurvives | sw/ClusterManagement/src/ch/ethz/zookeeper/Node.java:297-328 | in any surviving majority of followers one has acked any given committed zxid |
| ClusterTheorems.TwoNodesNeverCommit | sw/ClusterManagement/src/ch/ethz/zookeeper/Node.java:310 | with at most one follower no run commits or answers anything: the quorum test cannot be passed |
| ClusterTheorems.LeaderAdvancesByOne | sw/ClusterManagement/src/ch/ethz/zookeeper/Node.java:310-313 | in every reachable event the quorum branch is taken for the next zxid only, raises the leader by one, and nothing else moves the leader |
| ClusterTheorems.LastWriterHoldsSlot | sw/ClusterManagement/src/ch/ethz/zookeeper/Node.java:286 | of all writes with payload that reuse an open zxid, the connection of the last one is kept |
| ClusterTheorems.LastWriterIsAnswered | sw/ClusterManagement/src/ch/ethz/zookeeper/Node.java:273-339 | over every run, a committed zxid is answered exactly once, to the last connection whose write, with payload, came while it was open; any other zxid is not answered |
| ClusterTheorems.SomebodyLags | sw/ClusterManagement/src/ch/ethz/zookeeper/Node.java:310 | with two followers or more, a zxid that all have acked is never left uncommitted |
| ClusterTheorems.SettledIffConverged | sw/ClusterManagement/src/ch/ethz/zookeeper/Node.java:270-396 | over every run with two followers or more: delivering every logged message again would change nothing if and only if all nodes are at one zxid and no proposal is open |
| ClusterTheorems.WritesBoundZxid | sw/ClusterManagement/src/ch/ethz/zookeeper/Node.java:273-313 | neither the leader's zxid nor any proposed zxid grows by more than the number of writes with payload |
| ClusterTheorems.WriteIsProposed | sw/ClusterManagement/src/ch/ethz/zookeeper/Node.java:273-284 | a run with a write that has a payload sends every follower a proposal above the zxid it started from |
| ClusterMessages.EventSendsData | sw/ClusterManagement/src/ch/ethz/zookeeper/Node.java:273-284 | one event sends a follower the payload of a proposal for z if and only if it is a write with payload at a leader whose next zxid is z, and then that payload |
| ClusterMessages.RunSendsData | sw/ClusterManagement/src/ch/ethz/zookeeper/Node.java:273-284 | over every run the payloads sent to a follower under zxid z grow by those of the writes that came while z was the next zxid, in their order |
| ClusterMessages.ProposalsCarryWrites | sw/ClusterManagement/src/ch/ethz/zookeeper/Node.java:273-284 | from the start, the proposals for z to each follower carry exactly the payloads of the writes that came while z was open, in order |
| ClusterMessages.AllStamped | sw/ClusterManagement/src/ch/ethz/zookeeper/Node.java:273-328 | over every run all messages but sync requests are in the epoch of the leader, COMMITs and answers carry its id, and only proposals carry data |
| ClusterTheorems.WritesMoveEveryNode | sw/ClusterManagement/src/ch/ethz/zookeeper/Node.java:270-396 | runs with any number of writes that have a payload, and that come to rest again: all nodes at one zxid, higher by at least 1 and at most the number of those writes; for one, exactly one COMMIT per follower |
| ClusterDelivery.OpenWriteConverges | sw/ClusterManagement/src/ch/ethz/zookeeper/Node.java:270-391 | from a converged state with two followers or more, a run with writes that have a payload, which delivers everything it sent and stays within the next zxid, ends converged at that zxid, whatever the order of deliveries |
| ClusterDelivery.OneWriteConverges | sw/ClusterManagement/src/ch/ethz/zookeeper/Node.java:270-391 | one write with a payload, any writes without, and no lost message, in any order, with duplicates and late acks: every node ends one higher and each follower was sent exactly one more COMMIT |
| ClusterDelivery.FailureFreeRunExists | sw/ClusterManagement/src/ch/ethz/zookeeper/Node.java:270-391 | from every converged state, every write with a payload has such a run |
| ClusterDelivery.ProposalReaches | sw/ClusterManagement/src/ch/ethz/zookeeper/Node.java:360-372 | delivering the proposal for the next zxid to a follower that is ready for it puts its ack on the way, or the ack was already counted |
| ClusterDelivery.AckReaches | sw/ClusterManagement/src/ch/ethz/zookeeper/Node.java:293-306 | delivering that ack to the leader counts it, or it was counted before |
| ClusterDelivery.CommitReaches | sw/ClusterManagement/src/ch/ethz/zookeeper/Node.java:388-391 | delivering COMMIT for the next zxid moves the follower, or it had moved before |
| ClusterWrites.WriteThrowsIff | sw/ClusterManagement/src/ch/ethz/zookeeper/Node.java:270-290 | at the leader a write throws if and only if it has no payload; then no field changes and nothing is sent, else every connected peer is sent PROPOSAL with the id and epoch of the leader, its next zxid and the payload of the write, and the connection is kept |
| ClusterWrites.SixteenBytesThrow | sw/ClusterManagement/src/ch/ethz/zookeeper/Request.java:161-177 | the sixteen bytes of a write without payload are such a request: they parse to it, and the leader throws |
| ClusterWrites.EmptyWritesDropOut | sw/ClusterManagement/src/ch/ethz/zookeeper/Node.java:270-290 | leaving the writes without payload out of any run gives a run to the same cluster |
| ClusterWrites.ProposedIff | sw/ClusterManagement/src/ch/ethz/zookeeper/Node.java:270-290 | from rest, a zxid above the leader is proposed in a run if and only if some write in it had a payload |
| ClusterOrder.EarlyProposalIsForgotten | sw/ClusterManagement/src/ch/ethz/zookeeper/Node.java:360-386 | a proposal that comes before the COMMITs of earlier zxids changes no node and is answered by a sync request only |
| ClusterOrder.StaysBehind | sw/ClusterManagement/src/ch/ethz/zookeeper/Node.java:293-391 | in every run, with losses or without, a follower that is not delivered the proposal for z while z is its next zxid never acknowledges z, is never counted for it and stays below z |
| ClusterOrder.MetIsCounted | sw/ClusterManagement/src/ch/ethz/zookeeper/Node.java:293-391 | without losses, a follower that is delivered it then is counted for z in the end |
| ClusterOrder.ConvergesIffInOrder | sw/ClusterManagement/src/ch/ethz/zookeeper/Node.java:270-391 | any number of writes, no lost message, two followers or more: the cluster comes to rest again if and only if every follower is delivered every new proposal while it is its next, that is after the COMMIT before it |
| ClusterStall.TwoWritesCanStall | sw/ClusterManagement/src/ch/ethz/zookeeper/Node.java:270-391 | from every converged cluster with two followers or more, every two writes with payload have a run that delivers all that is sent and does not come to rest |
| ClusterSetup.ScriptConfigures | sw/ClusterManagement/src/ch/ethz/zookeeper/Configurator.java:71-100 | what one node knows after the configuration script: its id, exactly the listed peers connected, whether it leads, everything else as new |
| ClusterSetup.MemberIsConfigured | sw/ClusterManagement/src/ch/ethz/zookeeper/Node.java:226-268 | with the others of a group as peers, the node counts and connects exactly those |
| ClusterSetup.ScriptsGiveInitial | sw/ClusterManagement/src/ch/ethz/zookeeper/Configurator.java:71-100 | a group whose members all ran the script is an initial state of the cluster model |
| Wire.DigitOfFraction | sw/ClusterManagement/src/ch/ethz/zookeeper/Request.java:75-80 | dividing the exact decimal again and again and cutting off at the end gives the digits of whole-number division, signs included |
| Wire.FourRoundTripIff | sw/ClusterManagement/src/ch/ethz/zookeeper/Request.java:68-80 | the four bytes of a zxid or epoch read back as the number if and only if it is unsigned and below 2^32 |
| Wire.RoundTripIff | sw/ClusterManagement/src/ch/ethz/zookeeper/Request.java:54-110 | a request is parsed back from its own bytes, whatever follows, if and only if zxid and epoch are unsigned 32-bit numbers and the payload is whole words, fewer than 65536 of them |
| WireBytes.FourAt | sw/ClusterManagement/src/ch/ethz/zookeeper/Request.java:68-80 | byte k of a number is its digit k to the base 256, lowest first |
| WireBytes.EncodedBytes | sw/ClusterManagement/src/ch/ethz/zookeeper/Request.java:54-110 | every byte of a request with its place: two bytes 255, peer, opcode, payload size in words, zxid, epoch, payload |
| WireBytes.ParsedBytes | sw/ClusterManagement/src/ch/ethz/zookeeper/Request.java:161-206 | what `parse` answers, byte place by byte place: nothing without 16 bytes, the two bytes 255 and all of the payload; else the fields at those places |
| Wire.ParseIsStable | sw/ClusterManagement/src/ch/ethz/zookeeper/Request.java:161-194 | a parse that gave an answer gives the same one when more bytes follow |
| WireRequest.WireRequest.FillHeader | sw/ClusterManagement/src/ch/ethz/zookeeper/Request.java:54-87 | the sixteen header bytes, by byte loop and by decimal fractions, are those of `HeaderBytes` |
| WireRequest.WireRequest.Header | sw/ClusterManagement/src/ch/ethz/zookeeper/Request.java:90-92 | a request without payload represents its fields and holds its encoding |
| WireRequest.WireRequest.WithPayload | sw/ClusterManagement/src/ch/ethz/zookeeper/Request.java:94-110 | so does one with a payload, whose size bytes count words |
| WireRequest.NewRequest | sw/ClusterManagement/src/ch/ethz/zookeeper/Request.java:94-110 | with arguments that may be wrong: no request, for the exception, if and only if the payload is null or shorter than announced; else the request for its first bytes |
| WireRequest.ReadNumber | sw/ClusterManagement/src/ch/ethz/zookeeper/Request.java:196-206 | reads four bytes, lowest first, each as unsigned |
| WireRequest.ParseRequest | sw/ClusterManagement/src/ch/ethz/zookeeper/Request.java:161-194 | returns nothing, an exception or a request exactly as `Parse` says; the request has the parsed fields and length, and holds a null payload if and only if it was parsed without one |
| Reassembly.Receiver.Append | sw/ClusterManagement/src/ch/ethz/zookeeper/Node.java:128-144 | the buffer is what was left over and then the bytes read |
| Reassembly.Receiver.DropFirst | sw/ClusterManagement/src/ch/ethz/zookeeper/Node.java:162-172 | the processed bytes are dropped from the front |
| Reassembly.Receiver.Drain | sw/ClusterManagement/src/ch/ethz/zookeeper/Node.java:146-177 | the parse loop queues the requests that are complete in the buffer, in order, and keeps the rest |
| Reassembly.Receiver.Receive | sw/ClusterManagement/src/ch/ethz/zookeeper/Node.java:120-180 | after one read the queue and leftover are those of parsing leftover and new bytes as one stream |
| Reassembly.SplitAnywhere | sw/ClusterManagement/src/ch/ethz/zookeeper/Node.java:120-180 | parsing on where the first part stopped equals parsing both parts at once |
| Reassembly.CutDoesNotMatter | sw/ClusterManagement/src/ch/ethz/zookeeper/Node.java:120-180 | queue and leftover depend on the bytes, not on how reads cut them |
| Reassembly.ParseEncoded | sw/ClusterManagement/src/ch/ethz/zookeeper/Node.java:120-180 | a stream of encoded requests that fit is parsed into those requests, the incomplete tail kept |
| Reassembly.StreamRoundTrip | sw/ClusterManagement/src/ch/ethz/zookeeper/Node.java:120-180 | the same for every way to cut that stream into reads |
| RegexParser.Parser.constructor | sw/client-scan-demo/regex-util/fregex.cpp:419-440 | blank arrays of one state and one token more than asked for |
| RegexParser.Parser.ParseSequence | sw/client-scan-demo/regex-util/fregex.cpp:73-108 | the array graph grows by one literal token and one state as `ScanSequence` says, or reports that there is no room |
| RegexParser.Parser.ReadRange | sw/client-scan-demo/regex-util/fregex.cpp:110-129 | the characters between the brackets without dashes, and whether there was a dash |
| RegexParser.Parser.ParseRange | sw/client-scan-demo/regex-util/fregex.cpp:110-179 | one range token or one token per character, held by one state |
| RegexParser.Parser.ReadChoice | sw/client-scan-demo/regex-util/fregex.cpp:181-218 | every alternative that a bar closes becomes a token |
| RegexParser.Parser.ParseChoice | sw/client-scan-demo/regex-util/fregex.cpp:181-241 | all alternatives, held by one state |
| RegexParser.Parser.ParseWildcard | sw/client-scan-demo/regex-util/fregex.cpp:243-271 | `.*` makes the last state sticky, `+` gives it an edge to itself, any other special character is not passed |
| RegexParser.Parser.Parse | sw/client-scan-demo/regex-util/fregex.cpp:419-486 | the parse loop ends in the graph, stuck, or out of room exactly as `ParseFrom` does on the text |
| RegexParsed.ScanPrinted | sw/client-scan-demo/regex-util/fregex.cpp:73-241 | scanning the text of an item consumes that text and yields its tokens |
| RegexParsed.ParsePrinted | sw/client-scan-demo/regex-util/fregex.cpp:419-486 | parsing the text of a pattern yields the chain of its pieces, from any piece on |
| RegexFixup.SplitMirrored | sw/client-scan-demo/regex-util/fregex.cpp:273-316 | splitting a token off into a new state keeps the multiplicity of every edge equal in both edge arrays |
| RegexFixup.ParseMirrored | sw/client-scan-demo/regex-util/fregex.cpp:243-268 | so do concatenation, `+` and `.*`, for every text that is parsed to a graph |
| RegexFixup.FixMirrored | sw/client-scan-demo/regex-util/fregex.cpp:273-316 | so does the whole fix-up |
| RegexFixup.FixFromEven | sw/client-scan-demo/regex-util/fregex.cpp:273-316 | after the fix-up from state i on, every state has tokens of one length if and only if no state had two tokens in a row that differ in length from its first |
| RegexFixup.FixupEvens | sw/client-scan-demo/regex-util/fregex.cpp:273-316 | the same for the whole fix-up: the skipped index after a removal matters exactly then |
| RegexFixup.SplitOff | sw/client-scan-demo/regex-util/fregex.cpp:273-316 | the in-place split of the state array is `Split`, the rest of the array untouched |
| RegexFixup.FixTurn | sw/client-scan-demo/regex-util/fregex.cpp:273-316 | one comparison of the inner loop advances the in-place fix-up by one step of `FixState` |
| RegexFixup.FixInequalTokens | sw/client-scan-demo/regex-util/fregex.cpp:273-316 | the in-place fix-up is `FixFrom`, or reports that the states ran out |
| RegexFixLanguage.SplitEdge | sw/client-scan-demo/regex-util/fregex.cpp:273-316 | which edges a split leaves: the new state has those of the old one, except from copy to copy |
| RegexFixLanguage.SplitRest | sw/client-scan-demo/regex-util/fregex.cpp:273-316 | and everything else: the new state holds the moved token, is neither sticky nor accepting; no other state changes |
| RegexFixLanguage.SplitAddsNothing | sw/client-scan-demo/regex-util/fregex.cpp:273-316 | a split adds no word between any two states |
| RegexFixLanguage.SplitKeepsLanguage | sw/client-scan-demo/regex-util/fregex.cpp:273-316 | and loses none between other states when the split one neither loops nor is sticky |
| RegexFixLanguage.FixAddsNothing | sw/client-scan-demo/regex-util/fregex.cpp:273-316 | the whole fix-up adds no word |
| RegexFixLanguage.FixKeepsLanguage | sw/client-scan-demo/regex-util/fregex.cpp:273-316 | and loses none between states that it leaves alone, if those it may split neither loop nor are sticky |
| RegexRename.RenameAcceptingState | sw/client-scan-demo/regex-util/fregex.cpp:318-390 | the in-place renaming passes leave exactly `Renamed`, and answer the accepting index |
| RegexRename.RenameIsSwap | sw/client-scan-demo/regex-util/fregex.cpp:318-390 | the renamed array is the swap of the two states if and only if the accepting state has no edge to itself or to the last place |
| RegexRename.SwapMirrored | sw/client-scan-demo/regex-util/fregex.cpp:318-390 | a swap keeps the edge arrays mirrored |
| RegexRename.SwapKeepsLanguage | sw/client-scan-demo/regex-util/fregex.cpp:318-390 | a swap keeps the words accepted between any two states |
| RegexLinked.RenamedMirroredIff | sw/client-scan-demo/regex-util/fregex.cpp:318-390 | after renaming, the edge arrays are mirrored if and only if the accepting state has as many edges to itself as to the last place, in both arrays |
| RegexLinked.LinkedRenameBreaks | sw/client-scan-demo/regex-util/fregex.cpp:318-390 | `x(aa\|b)c` with 16 characters and 4 states is such a case: the state of `aa` keeps an edge that the accepting state does not know, which has an edge from itself instead |
| RegexLanguage.WalkIsWord | sw/client-scan-demo/regex-util/fregex.cpp:419-486 | every walk from piece k to the end reads a word of the pieces from k on |
| RegexLanguage.WordHasWalk | sw/client-scan-demo/regex-util/fregex.cpp:419-486 | every such word has a walk |
| RegexLanguage.GraphAcceptsPattern | sw/client-scan-demo/regex-util/fregex.cpp:419-486 | the parsed graph accepts exactly the words of the pattern |
| RegexLanguage.ChainAcceptsPattern | sw/client-scan-demo/regex-util/fregex.cpp:419-486 | so does every graph with the same chain |
| RegexLayout.Disjoint | sw/client-scan-demo/regex-util/fregex.cpp:543-581 | the tokens occupy disjoint stretches of the character array, in order |
| RegexLayout.PlacedAt | sw/client-scan-demo/regex-util/fregex.cpp:543-581 | each character stands at its own place with its linked and range flags, ranges on even pairs |
| RegexRoom.StartIsLeast | sw/client-scan-demo/regex-util/fregex.cpp:552-577 | a token starts at the least place that is not before the end of the one before it, and that is even if it is a range |
| RegexRoom.WithoutRanges | sw/client-scan-demo/regex-util/fregex.cpp:552-577 | without ranges a token starts at the number of characters of those before it |
| RegexLayout.PlaceToken | sw/client-scan-demo/regex-util/fregex.cpp:552-581 | the in-place copy of one token extends the sheet by that token, or reports that it does not fit; `RegexRoom.StartIsLeast` says where it starts |
| RegexLayout.LayOut | sw/client-scan-demo/regex-util/fregex.cpp:543-581 | placing succeeds if and only if the last token ends inside the array, which `RegexRoom` states on the pattern; then the arrays are the sheet and each offset is the token's last character |
| RegexTables.FillTables | sw/client-scan-demo/regex-util/fregex.cpp:585-609 | trigger, transition, length and sticky tables of the states, row by row; fails if and only if an index leaves its table |
| RegexBits.UnpackPack | sw/client-scan-demo/regex-util/fregex.cpp:611-749 | unpacking packed bits gives them back, padded with zeros to whole bytes |
| RegexBits.PushBit | sw/client-scan-demo/regex-util/fregex.cpp:611-749 | the accumulator step that every packing loop repeats appends one bit |
| RegexBits.Flush | sw/client-scan-demo/regex-util/fregex.cpp:611-749 | the last partial byte completes the packed bits |
| RegexPacking.PackConfig | sw/client-scan-demo/regex-util/fregex.cpp:611-768 | the packing loops write exactly the bytes of `PackTables` |
| RegexPacking.DecodePacked | sw/client-scan-demo/regex-util/fregex.cpp:611-768 | those bytes, of the closed-form count `ConfigLength`, decode to every table they were made from; a length of 0 reads as 1 |
| RegexAddress.PackedBit | sw/client-scan-demo/regex-util/fregex.cpp:611-749 | bit k of what is packed is bit k mod 8, from the lowest, of byte k / 8 |
| RegexAddress.CharAddress | hw/src/regex/rem_top_ff.v:226 | the characters are where the hardware reads them |
| RegexAddress.RangeAddress | hw/src/regex/rem_top_ff.v:227 | so are the range flags |
| RegexAddress.LinkedAddress | hw/src/regex/rem_top_ff.v:228 | and the linked flags |
| RegexAddress.TriggerAddress | hw/src/regex/rem_top_ff.v:229 | and the triggers of each state |
| RegexAddress.EdgeAddress | hw/src/regex/rem_top_ff.v:230 | and its transitions |
| RegexAddress.LengthAddress | hw/src/regex/rem_top_ff.v:235 | and its length, less one, in four bits behind the transitions rounded up to bytes |
| RegexAddress.StickyAddress | hw/src/regex/rem_top_ff.v:236 | and its sticky flag |
| RegexReader.TokenFires | hw/src/regex/rem_halfrange.v:1-98 | chained over the laid-out characters, the matcher at a token's last character fires on exactly what the token stands for |
| RegexReader.TablesAcceptLanguage | hw/src/regex/rem_top_ff.v:140-150 | following trigger and transition tables accepts exactly what the graph accepts between the same states |
| RegexCompile.ParsedIsSound | sw/client-scan-demo/regex-util/fregex.cpp:73-486 | whatever text is parsed, tokens and edges stay in range, ranges are pairs, and both edge arrays agree |
| RegexCompile.GetConfig | sw/client-scan-demo/regex-util/fregex.cpp:393-768 | all steps together: stuck, out of room, too long, or the packed bytes, as `Compiled` says for every text; for a pattern `RegexRoom.CompiledIffFits` says which |
| RegexTheorem.PrintedCompiles | sw/client-scan-demo/regex-util/fregex.cpp:393-768 | a pattern that fits states and tokens compiles to the packed tables of its moved chain, or its last token ends behind the characters, which `RegexRoom` states on the pattern alone; nothing else |
| RegexRoom.FitsIff | sw/client-scan-demo/regex-util/fregex.cpp:543-581 | the characters end inside the array if and only if its items can be placed in order, one behind the other, ranges on even places |
| RegexRoom.CompiledIffFits | sw/client-scan-demo/regex-util/fregex.cpp:393-581 | for a pattern with enough states: bytes if and only if its items can be placed in `charCnt` characters, too long if and only if not and it has at most one token more than characters, outside the arrays if and only if it has more tokens |
| RegexRoom.CompiledIffEnough | sw/client-scan-demo/regex-util/fregex.cpp:393-581 | without ranges: bytes if and only if the characters of the items are at most `charCnt` in number |
| RegexRoom.TooManyParts | sw/client-scan-demo/regex-util/fregex.cpp:419-486 | parsing leaves its arrays if a pattern has more pieces or tokens than they hold |
| RegexRoom.OutsideArrays | sw/client-scan-demo/regex-util/fregex.cpp:399-486 | so a pattern with more than `stateCnt + 1` pieces or `charCnt + 1` tokens leaves them |
| RegexRoom.StrayCharacters | sw/client-scan-demo/regex-util/fregex.cpp:243-271 | a text that begins with a dot alone or a star is never parsed to its end; one that begins with `+` or `.*` reaches for a state before the first |
| RegexMalformed.BracketIsSkipped | sw/client-scan-demo/regex-util/fregex.cpp:110-179 | a bracket with a dash and not exactly two other characters is skipped, wherever it stands |
| RegexMalformed.BracketIsDropped | sw/client-scan-demo/regex-util/fregex.cpp:110-179 | so a text compiles as if such a bracket at its beginning were not there |
| RegexMalformed.UnclosedIsClosed | sw/client-scan-demo/regex-util/fregex.cpp:110-241 | a bracket or parenthesis that is never closed reads as if it were closed at the end |
| RegexTheorem.CompiledDecodes | sw/client-scan-demo/regex-util/fregex.cpp:393-768 | its bytes decode to those tables |
| RegexTheorem.CompiledAcceptsPattern | sw/client-scan-demo/regex-util/fregex.cpp:393-768 | the decoded tables accept exactly the words of the pattern, from its entry state to the last state: parsing, fix-up, renaming, layout and packing preserve meaning |
| RegexUneven.FixRoom | sw/client-scan-demo/regex-util/fregex.cpp:273-316 | how many states the fix-up can need |
| RegexUneven.FixFlags | sw/client-scan-demo/regex-util/fregex.cpp:273-316 | which states are sticky, accepting or loop after it |
| RegexUneven.PatternIsReady | sw/client-scan-demo/regex-util/fregex.cpp:393-486 | every pattern whose alternatives may differ in length, with a place left for the last state, is parsed, fixed up and finished |
| RegexUneven.UnevenDecodes | sw/client-scan-demo/regex-util/fregex.cpp:393-768 | its bytes decode to the tables of the fixed graph, accepting state moved to the last place |
| RegexUneven.CompiledAcceptsUneven | sw/client-scan-demo/regex-util/fregex.cpp:393-768 | these tables accept words of the pattern only; and all of them, if pieces with alternatives of different lengths stand between others, without plus or gap |
| RegexUneven.LastAlternativeIsLost | sw/client-scan-demo/regex-util/fregex.cpp:273-316 | `a(bb\|c)` with 16 characters and 4 states compiles to tables that do not accept `abb`, a word of it |
| RegexTheorem.EntryAlwaysActive | hw/src/regex/rem_top_ff.v:239-242 | the entry state has an empty transition row, which is what keeps it active, if and only if the first piece has no plus |
| RegexTheorem.LengthTable | sw/client-scan-demo/regex-util/fregex.cpp:585-609 | a state's length entry is the length of every word of its item if and only if the item is not a range: a range is entered as two characters |
| RegexTheorem.FixupSkips | sw/client-scan-demo/regex-util/fregex.cpp:273-316 | `(aa\|bb\|c)` leaves the fix-up with a state holding tokens of two lengths |
| Sha256.RotrWord | hw/src/sha256-master/src/model/python/sha256.py:224-226 | the shift, or and mask of `_rotr32` rotate the word |
| Sha256.ShrWord | hw/src/sha256-master/src/model/python/sha256.py:228-229 | `_shr32` shifts the word |
| Sha256.ChWord | hw/src/sha256-master/src/model/python/sha256.py:193-194 | `_Ch` stays below 2^32, although `~x` is negative, and is Ch of section 4.1.2 of FIPS 180-4 bit by bit |
| Sha256.MajWord | hw/src/sha256-master/src/model/python/sha256.py:197-198 | `_Maj` is Maj |
| Sha256.SigmaWords | hw/src/sha256-master/src/model/python/sha256.py:200-206 | `_sigma0` and `_sigma1` are the capital sigmas |
| Sha256.DeltaWords | hw/src/sha256-master/src/model/python/sha256.py:208-214 | `_delta0` and `_delta1` are the small sigmas |
| Sha256.T1Word | hw/src/sha256-master/src/model/python/sha256.py:216-218 | `_T1` stays below 2^32 and is the standard's sum modulo 2^32 |
| Sha256.T2Word | hw/src/sha256-master/src/model/python/sha256.py:220-222 | `_T2` likewise |
| Sha256.NextIsScheduled | hw/src/sha256-master/src/model/python/sha256.py:173-186 | the new window word is the recurrence of the message schedule |
| Sha256.WindowSlides | hw/src/sha256-master/src/model/python/sha256.py:173-186 | sixteen words are enough: after dropping the first and appending the new one the window holds the next sixteen of the 64-word schedule |
| Sha256.RoundWords | hw/src/sha256-master/src/model/python/sha256.py:158-171 | one round on numbers is one round on words, and stays in range |
| Sha256.AddedWords | hw/src/sha256-master/src/model/python/sha256.py:136-144 | the masked sums are additions of words |
| Sha256Constants.FirstPrimes | hw/src/sha256-master/src/model/python/sha256.py:79-94 | the 64 numbers of the table are the first primes: primes, in order, none left out |
| Sha256Constants.RoundConstants | hw/src/sha256-master/src/model/python/sha256.py:79-94 | constant t is the first 32 bits of the fractional part of the cube root of prime t |
| Sha256Constants.InitialHash256 | hw/src/sha256-master/src/model/python/sha256.py:98-104 | the initial hash value is made in the same way from the square roots of the first eight primes |
| Sha256Constants.InitialHash224 | hw/src/sha256-master/src/model/python/sha256.py:98-104 | the one of the other mode is the second 32 bits of the square roots of the ninth to sixteenth |
| Sha256.Hash.constructor | hw/src/sha256-master/src/model/python/sha256.py:59-88 | registers, digest and window start at zero in the chosen mode |
| Sha256.Hash.Init | hw/src/sha256-master/src/model/python/sha256.py:98-104 | sets a new list of the initial hash value of the mode |
| Sha256.Hash.GetDigest | hw/src/sha256-master/src/model/python/sha256.py:121-122 | hands out the list itself, not a copy |
| Sha256.Hash.LoadBlock | hw/src/sha256-master/src/model/python/sha256.py:188-190 | the first sixteen words of the block become the window |
| Sha256.Hash.CopyDigest | hw/src/sha256-master/src/model/python/sha256.py:125-133 | the registers start from the digest |
| Sha256.Hash.UpdateDigest | hw/src/sha256-master/src/model/python/sha256.py:136-144 | the digest becomes the sums of step 4 |
| Sha256.Hash.NextW | hw/src/sha256-master/src/model/python/sha256.py:173-186 | answers word t of the schedule for round t and keeps the window for the next round |
| Sha256.Hash.LoadRound | hw/src/sha256-master/src/model/python/sha256.py:158-163 | constant t and word t of the schedule |
| Sha256.Hash.Sha256Round | hw/src/sha256-master/src/model/python/sha256.py:158-171 | the registers make the round of step 3 with constant t and word t |
| Sha256.Hash.Next | hw/src/sha256-master/src/model/python/sha256.py:106-119 | for every chaining value and block the digest becomes the compression of section 6.2.2 of FIPS 180-4, and the window ends at word 63; `Sha256Constants` pins its constants |
| Sha256Answer.DigestOfAbc | hw/src/sha256-master/src/model/python/sha256.py:360-373 | the compression of the block of "abc" from the initial hash value is the published digest: 64 rounds followed word by word |
| Permutations.ColumnPermutation | sw/multes_client_library_priv/rotpert/rotpert.go:217-253 | answers the padded list, or waits for more random numbers, as `Result` says |
| Permutations.Shuffle | sw/multes_client_library_priv/rotpert/rotpert.go:235-238 | the in-place swaps are `Shuffled` by the picks of the random numbers |
| Permutations.PickOther | sw/multes_client_library_priv/rotpert/rotpert.go:244-248 | draws until a pick differs from the last two entries |
| Permutations.PadRandomly | sw/multes_client_library_priv/rotpert/rotpert.go:240-251 | pads with such picks up to the next multiple of three |
| Permutations.PadOrdered | sw/multes_client_library_priv/rotpert/rotpert.go:223-231 | pads by counting down: with `size - 2` and `size - 3`, or with the latter alone |
| Permutations.OrderedIs | sw/multes_client_library_priv/rotpert/rotpert.go:219-231 | the ordered answer for every size: 0, 1, 2, ..., then `size - 2` and `size - 3` if two are missing to a multiple of three, `size - 3` if one is |
| Permutations.ShuffleKeeps | sw/multes_client_library_priv/rotpert/rotpert.go:235-238 | whatever is drawn, the shuffled list is a permutation |
| Permutations.ShuffleInjective | sw/multes_client_library_priv/rotpert/rotpert.go:235-238 | different picks give different orders |
| Permutations.ShuffleReaches | sw/multes_client_library_priv/rotpert/rotpert.go:235-238 | every order is reached by some picks; with injectivity, by exactly one |
| Permutations.EveryOrderIsDrawn | sw/multes_client_library_priv/rotpert/rotpert.go:235-253 | for three columns or more, every order is the beginning of an answer for some random numbers |
| Permutations.ThirdColumn | sw/multes_client_library_priv/rotpert/rotpert.go:244-248 | an acceptable pick exists if and only if there are three columns |
| Permutations.AlwaysPadded | sw/multes_client_library_priv/rotpert/rotpert.go:217-253 | for three columns or more and all random numbers: length the next multiple of three, the first entries a permutation, every aligned triplet distinct, ordered or shuffled |
| Permutations.SmallNeverEnds | sw/multes_client_library_priv/rotpert/rotpert.go:240-251 | with one or two columns the shuffled mode never ends |
| Permutations.SmallOrdered | sw/multes_client_library_priv/rotpert/rotpert.go:223-231 | with one or two columns the ordered mode pads with a number that is no column |
| Permutations.ShuffledCanEnd | sw/multes_client_library_priv/rotpert/rotpert.go:240-251 | with three columns or more some further draws end it, whatever was drawn before |
| Rotation.XYIsRotation | sw/multes_client_library_priv/rotpert/rotpert.go:44-55 | for s^2 + c^2 = 1 the XY family is orthogonal |
| Rotation.YZIsRotation | sw/multes_client_library_priv/rotpert/rotpert.go:57-68 | and the YZ family |
| Rotation.XZIsRotation | sw/multes_client_library_priv/rotpert/rotpert.go:70-81 | and the XZ family |
| Rotation.XYTurns | sw/multes_client_library_priv/rotpert/rotpert.go:44-55 | what the XY matrix does to any vector: a turn about the second axis, then one about the first |
| Rotation.YZTurns | sw/multes_client_library_priv/rotpert/rotpert.go:57-68 | the YZ matrix: about the third axis, then the second |
| Rotation.XZTurns | sw/multes_client_library_priv/rotpert/rotpert.go:70-81 | the XZ matrix: about the third axis, then the first |
| Rotation.RotateVector3D | sw/multes_client_library_priv/rotpert/rotpert.go:83-93 | the loops multiply the matrix by the vector |
| Rotation.KeepsLength | sw/multes_client_library_priv/rotpert/rotpert.go:83-93 | an orthogonal matrix keeps the length of every vector |
| RotatedData.RotateGroup | sw/multes_client_library_priv/rotpert/rotpert.go:102-110 | one group is gathered, rotated and written where its columns exist |
| RotatedData.RotateRow | sw/multes_client_library_priv/rotpert/rotpert.go:101-112 | all groups of one record |
| RotatedData.RotateData3D | sw/multes_client_library_priv/rotpert/rotpert.go:95-115 | every record becomes its `Written` record |
| RotatedData.WrittenAt | sw/multes_client_library_priv/rotpert/rotpert.go:102-110 | position p puts component p mod 3 of the rotated group p / 3 into column `columns[p]`, and no later position changes it |
| RotatedData.PaddingWritesNothing | sw/multes_client_library_priv/rotpert/rotpert.go:106-110 | positions behind the last column change nothing |
| RotatedData.EveryColumnOnce | sw/multes_client_library_priv/rotpert/rotpert.go:95-115 | for every width: each column has exactly one position, and the record written holds that position's rotated component there |
| RotatedData.SumPermuted | sw/multes_client_library_priv/rotpert/rotpert.go:95-115 | a sum over columns does not depend on their order |
| RotatedData.DistancesKept | sw/multes_client_library_priv/rotpert/rotpert.go:95-115 | with a multiple of three columns the squared distance of any two records stays |
| RotatedData.DistancesKeptIff | sw/multes_client_library_priv/rotpert/rotpert.go:95-115 | for three columns or more: all rotations keep all distances if and only if the number of columns is a multiple of three |
| ColumnPages.ReadColumnRest | sw/multes_client_library_priv/parquet/processor.go:654-855 | a read takes the next entries of what is left of a column, and leaves the rest behind the cursor unless it ends stale; fails if and only if fewer are left |
| ColumnPages.SinglePagesNeverStale | sw/multes_client_library_priv/parquet/processor.go:771-779 | with one page per value no read ends stale |
| ColumnPages.CursorRightIff | sw/multes_client_library_priv/parquet/processor.go:771-779 | the cursor left behind stands before exactly the entries not yet read if and only if it is not a stale offset in front of a page with entries |
| ColumnBatches.BatchIsNextSlice | sw/multes_client_library_priv/parquet/processor.go:481-879 | a batch is the next slice of every enabled column and its rows are those of that slice that pass every filter |
| ColumnBatches.ScanDelivers | sw/multes_client_library_priv/parquet/processor.go:457-479 | a scan without stale batches delivers exactly the rows still ahead that pass every filter, in order; `ColumnRows.TableSelects` says which rows these are |
| ColumnBatches.StartsAtRowZero | sw/multes_client_library_priv/parquet/processor.go:110-116 | reset offsets stand before row 0 in every enabled column |
| ColumnBatches.SingleNeverStale | sw/multes_client_library_priv/parquet/processor.go:771-779 | with one page per value no batch is stale |
| ColumnBatches.ScanIsTable | sw/multes_client_library_priv/parquet/processor.go:457-479 | then a scan is the filtered table, and a second scan finds no more |
| ColumnCuts.StaleIff | sw/multes_client_library_priv/parquet/processor.go:771-779 | a read ends stale if and only if its stretch begins inside a page and ends at the end of a page of the same value that is not its last |
| ColumnCuts.CursorRightUnlessCut | sw/multes_client_library_priv/parquet/processor.go:654-855 | the entries behind the cursor are the ones not yet read if and only if the stretch does not cut into a page with entries: a condition on page sizes only |
| ColumnCuts.OthersStaleIff | sw/multes_client_library_priv/parquet/processor.go:640-857 | a batch ends stale if and only if it cuts a page of one of the columns read after the first |
| ColumnCuts.NeverStaleIff | sw/multes_client_library_priv/parquet/processor.go:457-479 | no batch of the rest of a scan is stale if and only if none of the stretches of the first column still to come cuts a page |
| ColumnCuts.UncutScanIsTable | sw/multes_client_library_priv/parquet/processor.go:457-479 | from the start, for any page sizes: no batch is stale if and only if no batch cuts a page, and then the scan is the filtered table |
| ColumnCutExample.CutScanFails | sw/multes_client_library_priv/parquet/processor.go:771-779 | two columns of four entries, the second one value of two two-entry pages: the third batch pairs entry 2 with entry 3, and the scan fails |
| ColumnSpoils.StaysShort | sw/multes_client_library_priv/parquet/processor.go:656-853 | a column of which entries were lost stays short of them in every later read |
| ColumnSpoils.CutMakesShort | sw/multes_client_library_priv/parquet/processor.go:771-779 | a batch that cuts into a page with entries loses entries of it |
| ColumnSpoils.CutSpoilsScan | sw/multes_client_library_priv/parquet/processor.go:457-479 | such a batch spoils the scan for good: it fails, or the column goes on into the values stored behind it; if nothing is stored behind it, the scan fails |
| ColumnSpoils.SpoiledIffCut | sw/multes_client_library_priv/parquet/processor.go:457-479 | when every page has entries: some column is spoiled if and only if some batch cuts a page, and if none is, the scan is the filtered table |
| ColumnRows.KeptWhere | sw/multes_client_library_priv/parquet/processor.go:864-879 | the rows kept stand at increasing numbers, and a number is among them if and only if its row passes every filter |
| ColumnRows.RowOfTable | sw/multes_client_library_priv/parquet/processor.go:457-479 | row i of the table holds entry i of every enabled column, in the order of the columns, and passes if and only if the filter of every enabled column accepts that entry |
| ColumnRows.TableSelects | sw/multes_client_library_priv/parquet/processor.go:457-479 | the filtered table, written out: increasing row numbers, each with the entries of that row, each accepted by every filter; every other row has an entry that its filter refuses |
| ColumnRows.BatchSelects | sw/multes_client_library_priv/parquet/processor.go:481-879 | a batch that starts at a row answers, of the rows of its stretch, exactly those that every filter accepts, with the entries of those rows |
| ColumnRows.ScanSelects | sw/multes_client_library_priv/parquet/processor.go:457-479 | a scan from the start that cuts no page answers, of all rows of the table, exactly those that every filter accepts, in order |
| ColumnRows.BatchRowsPass | sw/multes_client_library_priv/parquet/processor.go:752-879 | whatever the pages and cursors, every entry of a returned row was accepted by the filter of its column |
| ColumnRows.ScanRowsPass | sw/multes_client_library_priv/parquet/processor.go:457-479 | so for every scan that ends, stale or not |
| ColumnReader.Processor.constructor | sw/multes_client_library_priv/parquet/processor.go:52-91 | all columns enabled, no filters, offsets zero |
| ColumnReader.Processor.ResetOffsets | sw/multes_client_library_priv/parquet/processor.go:110-116 | all offsets zero |
| ColumnReader.Processor.EnableColumn | sw/multes_client_library_priv/parquet/processor.go:118-121 | enables one column and resets the offsets |
| ColumnReader.Processor.DisableColumn | sw/multes_client_library_priv/parquet/processor.go:123-126 | disables one column and resets the offsets |
| ColumnReader.Processor.SetColumnFilter | sw/multes_client_library_priv/parquet/processor.go:133-136 | sets one filter and resets the offsets |
| ColumnReader.Processor.ReadEntries | sw/multes_client_library_priv/parquet/processor.go:752-780 | the entry loop takes eight bytes at a time up to the rows wanted, clears the flags the filter refuses, and keeps the counter equal to the number of true flags |
| ColumnReader.Processor.ReadValue | sw/multes_client_library_priv/parquet/processor.go:668-845 | the page loop over one value is `ReadPages` |
| ColumnReader.Processor.ReadRest | sw/multes_client_library_priv/parquet/processor.go:656-853 | the value loop over one column is `ReadColumn`, cursor included |
| ColumnReader.Processor.ReadFirst | sw/multes_client_library_priv/parquet/processor.go:522-637 | the first enabled column gives all entries of its next value, and their flags |
| ColumnReader.Processor.BuildRows | sw/multes_client_library_priv/parquet/processor.go:864-879 | the rows whose flag is set, in order; the running counter is their number. With the flags of a batch these are the rows that `ColumnRows.BatchSelects` describes |
| ColumnReader.Processor.ReadOtherColumns | sw/multes_client_library_priv/parquet/processor.go:640-857 | the remaining columns, with flags narrowed by every filter |
| ColumnReader.Processor.GetRowBatch | sw/multes_client_library_priv/parquet/processor.go:481-879 | no columns, no more rows, failure or the next rows, with the offsets of `GetBatch` |
| ColumnReader.Processor.GetAllRows | sw/multes_client_library_priv/parquet/processor.go:457-479 | all batches are those of `ScanAll` |
| BulkGet.Collect | sw/multes_client_library_priv/ops/basic_ops.go:214-219 | replies are copied behind the results so far, or the first missing one is named |
| BulkGet.SendBulk | sw/multes_client_library_priv/ops/basic_ops.go:207-234 | one send |
| BulkGet.SendAll | sw/multes_client_library_priv/ops/basic_ops.go:186-236 | the loop over keys with reused request slots sends consecutive stretches of the requests |
| BulkGet.GetBulkN | sw/multes_client_library_priv/ops/basic_ops.go:175-237 | refuses a count or bulk size that is no multiple of three, panics on a bulk size that is not positive; otherwise the outcome of those sends |
| BulkGet.RequestsPerturbedFirst | sw/multes_client_library_priv/ops/basic_ops.go:190-205 | the conditional requests come first |
| BulkReplies.RequestBytes | sw/multes_client_library_priv/ops/basic_ops.go:190-205 | the bytes of the request for key i: chunk index 0, the key, and the condition with its decompress byte, for the conditional keys or for all |
| BulkGet.ServeSplits | sw/multes_client_library_priv/ops/basic_ops.go:207-234 | serving in two parts cut at a multiple of three equals serving at once: no triplet is split |
| BulkGet.SendsAreOne | sw/multes_client_library_priv/ops/basic_ops.go:190-236 | for a bulk size that is a multiple of three, all sends together bring what one send would |
| BulkGet.BulkSizeDoesNotMatter | sw/multes_client_library_priv/ops/basic_ops.go:175-237 | so the results, key by key, do not depend on the bulk size |
| BulkGet.ReplyAt | sw/multes_client_library_priv/ops/basic_ops.go:175-237 | the reply at place i is to request i alone, or its component of the reply to its own triplet |
| BulkReplies.ResultIsReply | sw/multes_client_library_priv/ops/basic_ops.go:186-237 | result i is the answer at its place in the answers to the one send that carries its key |
| BulkReplies.FailsWhere | sw/multes_client_library_priv/ops/basic_ops.go:207-234 | a failing read names the first send with an answer missing, and the first key in it without one |
| PerturbedSlots.SpreadIsColumnData | sw/multes_client_library_priv/parquet/processor.go:395-452 | each column ends with its own pages' data in slot order |
| PerturbedSlots.SpreadSucceedsIff | sw/multes_client_library_priv/parquet/processor.go:395-452 | handing out succeeds if and only if every page has the shape its slot needs |
| PerturbedSlots.KeysAre | sw/multes_client_library_priv/parquet/processor.go:335-388 | the key list is built if and only if every slot's index is in the directory, and then it holds the slots' keys in order |
| PerturbedSlots.PlacesDiffer | sw/multes_client_library_priv/parquet/processor.go:335-388 | different places before the padding hold different columns |
| PerturbedSlots.GroupCompleteIff | sw/multes_client_library_priv/parquet/processor.go:341-354 | a group reads all pages of its three columns if and only if they have equally many |
| PerturbedReader.PlanIsValid | sw/multes_client_library_priv/parquet/processor.go:323-333 | the columns to rotate and to output, with a permutation from `ColumnPermutation`, form a valid plan naming every enabled column in its role |
| PerturbedReader.PerturbedReader.ColumnIndices | sw/multes_client_library_priv/parquet/processor.go:323-333 | collects both lists of columns |
| PerturbedReader.PerturbedReader.RanOut | sw/multes_client_library_priv/parquet/processor.go:341-354 | tells whether one of the group's columns is used up |
| PerturbedReader.PerturbedReader.BuildKeys | sw/multes_client_library_priv/parquet/processor.go:335-388 | the key-building loops visit the plan's slots in order, which `PerturbedPages.ElementsAsked` names by their elements, and leave all offsets zero again |
| PerturbedReader.PerturbedReader.ReadPages | sw/multes_client_library_priv/parquet/processor.go:395-452 | the page-reading loops visit the same slots in the same order and leave all offsets zero again |
| PerturbedReader.PerturbedReader.GetPerturbedRows | sw/multes_client_library_priv/parquet/processor.go:303-455 | the outcome is that of `PerturbedRows`; after success the offsets are zero |
| PerturbedTheorem.ServeSlots | sw/multes_client_library_priv/parquet/processor.go:339-452 | served in slot order, the answers are the replies group by group, round by round |
| PerturbedTheorem.SentAreAsked | sw/multes_client_library_priv/parquet/processor.go:335-393 | the requests sent are those of the slots, rotated ones first |
| PerturbedTheorem.BulkIsReplies | sw/multes_client_library_priv/parquet/processor.go:390-393 | with a bulk size that is a multiple of three the pages handed out are those replies |
| PerturbedTheorem.ReadSucceedsIff | sw/multes_client_library_priv/parquet/processor.go:303-455 | a perturbed read succeeds if and only if all keys exist, the bulk size is a positive multiple of three and every page has the right shape |
| PerturbedTheorem.PerturbedReadDelivers | sw/multes_client_library_priv/parquet/processor.go:339-452 | after success every column to rotate holds its component of its group's rotated rounds in page order, every output column its plain pages, every other nothing; padding is dropped. `PerturbedPages` states the same on bytes and element keys |
| PerturbedTheorem.EveryColumnHasPlace | sw/multes_client_library_priv/parquet/processor.go:335-388 | every column to rotate has exactly one place before the padding |
| PerturbedTheorem.EqualPagesAllDelivered | sw/multes_client_library_priv/parquet/processor.go:341-354 | when the three columns of a group have equally many pages, a column of that group gets all of its own; `PerturbedPages.EqualPagesAllBytes` states the same on bytes and element keys |
| PerturbedPages.ElementsAsked | sw/multes_client_library_priv/parquet/processor.go:339-388 | which elements are asked for: of an output column all, each once and in order; of a rotated column the first ones, each once and in order, until one of the three columns of its group has no more |
| PerturbedPages.RotatedBytes | sw/multes_client_library_priv/parquet/processor.go:339-452 | what a rotated column holds, byte for byte: round r of it is its component of the answer to the conditional requests for elements `chunks + r` of the three columns of its group |
| PerturbedPages.EqualPagesAllBytes | sw/multes_client_library_priv/parquet/processor.go:341-354 | with equal numbers of pages in the group these are all pages of the column, each once and in order |
| PerturbedPages.OutputBytes | sw/multes_client_library_priv/parquet/processor.go:378-452 | what an output column holds, byte for byte: the contents of all its pages, each asked for under its own element key |
| PerturbedPages.EntriesOfFlat | sw/multes_client_library_priv/parquet/processor.go:411-450 | cutting bytes into entries undoes joining entries to bytes |
| PerturbedPages.FlatEntries | sw/multes_client_library_priv/parquet/processor.go:411-450 | and joining undoes cutting, for a multiple of eight bytes |
| PerturbedPages.PagesRead | sw/multes_client_library_priv/parquet/processor.go:425-450 | the entries read from a page with a header of seven bytes that starts with 3, of six that starts with 2, and from a rotated page, which has none |
| Chunks.IndexKey | sw/multes_client_library_priv/ops/basic_ops.go:365-371 | the index bytes, highest first, in front of the key |
| Chunks.IndexBytesEqualIff | sw/multes_client_library_priv/ops/basic_ops.go:365-371 | index bytes tell indices apart if and only if they differ modulo 256 to the width |
| Chunks.WordsEqualIff | sw/multes_client_library_priv/ops/basic_ops.go:365-371 | two chunks are stored under one key word if and only if the indices are equal and the keys differ at most in zeros at the end |
| Chunks.PiecesSplit | sw/multes_client_library_priv/ops/basic_ops.go:373-393 | the later pieces make up their part of the value, as many as counted, all full but the last |
| Chunks.ChunksSplit | sw/multes_client_library_priv/ops/basic_ops.go:348-393 | the chunks make up the value, are as many as `numOps`, and have the sizes of the two limits |
| Chunks.TooLongIff | sw/multes_client_library_priv/ops/basic_ops.go:333-346 | more chunks than two index bytes can number if and only if the value is longer than the longest |
| Chunks.LaterOps | sw/multes_client_library_priv/ops/basic_ops.go:373-396 | the chunk loop fills the requests behind the first |
| Chunks.BuildSet | sw/multes_client_library_priv/ops/basic_ops.go:325-396 | all requests of `set`, or key or value too long |
| ChunkRequests.ChunkAt | sw/multes_client_library_priv/ops/basic_ops.go:348-393 | which bytes of the value chunk i holds |
| ChunkRequests.SetRequests | sw/multes_client_library_priv/ops/basic_ops.go:325-396 | every request of `set`: index bytes, key, its bytes of the value, and the `replicated` flag that was asked for; and the two errors by length |
| Chunks.BuildBatch | sw/multes_client_library_priv/ops/experimental.go:11-66 | all requests of `BatchSet`, each value with its count in front |
| ChunkRequests.CountedRequests | sw/multes_client_library_priv/ops/experimental.go:27-66 | the same for a value of a batch, whose first request has the count of the later ones in front |
| ChunkRequests.BatchRequests | sw/multes_client_library_priv/ops/experimental.go:13-66 | the requests of a batch are those of its values, one after the other |
| ChunkRequests.BatchFailsWhere | sw/multes_client_library_priv/ops/experimental.go:13-40 | it fails at the first key or value that is too long, and with that error |
| Chunks.BuildDelete | sw/multes_client_library_priv/ops/basic_ops.go:427-447 | the delete requests for chunks 0 to n - 1 |
| ChunkRequests.DeleteRequests | sw/multes_client_library_priv/ops/basic_ops.go:427-447 | the index bytes and key of each delete request |
| ChunkStore.AnyOrder | sw/multes_client_library_priv/ops/array_ops.go:59-130 | writes that agree may come in any order, and repeatedly |
| ChunkStore.ChunkStored | sw/multes_client_library_priv/ops/basic_ops.go:348-396 | every chunk is found under its own key |
| ChunkStore.GetAfterSetIff | sw/multes_client_library_priv/ops/basic_ops.go:43-76 | `Get` after `set` gives the value back if and only if it has 1 to `cLen` bytes; otherwise its first chunk only |
| ChunkStore.DeletesRemove | sw/multes_client_library_priv/ops/basic_ops.go:427-447 | the delete requests remove exactly those chunk keys |
| ChunkStore.DeleteAfterBatch | sw/multes_client_library_priv/ops/basic_ops.go:404-451 | `Delete` after `BatchSet` removes exactly the chunks written; the store is as before if and only if none of their keys was taken |
| ChunkStore.BatchStores | sw/multes_client_library_priv/ops/experimental.go:13-66 | a batch of different keys stores every chunk of every value |
| ChunkStore.Client.SetValue | sw/multes_client_library_priv/ops/basic_ops.go:325-396 | the store afterwards, or an error and the old store |
| ChunkStore.Client.BatchSet | sw/multes_client_library_priv/ops/experimental.go:11-66 | likewise for a batch |
| ChunkStore.Client.DeleteValue | sw/multes_client_library_priv/ops/basic_ops.go:404-451 | likewise for a delete, which reads the count first |
| ArrayStore.ElemKeysEqualIff | sw/multes_client_library_priv/ops/array_ops.go:15-26 | element keys coincide if and only if the indices do modulo 2^24 |
| ArrayStore.DirAt | sw/multes_client_library_priv/ops/array_ops.go:96-103 | entry i of the directory is the index i + 1 |
| ArrayStore.BuildDir | sw/multes_client_library_priv/ops/array_ops.go:96-103 | the directory bytes |
| ArrayStore.QueueJobs | sw/multes_client_library_priv/ops/array_ops.go:79-115 | key, nil and length errors, or one job per element and one for the directory |
| ChunkRequests.ElementRequests | sw/multes_client_library_priv/ops/array_ops.go:104-115 | the requests that a job makes: those for its element, or for the directory under index 0 |
| ChunkRequests.DirectoryBytes | sw/multes_client_library_priv/ops/array_ops.go:96-103 | the three bytes of each entry of the directory |
| ArrayStore.WorkGetsDone | sw/multes_client_library_priv/ops/array_ops.go:59-77 | every step of a worker uses up one unit of work, and with a worker some step is possible until none is left |
| ArrayStore.RunLength | sw/multes_client_library_priv/ops/array_ops.go:59-77 | all finished schedules have the same length |
| ArrayStore.JobsConsistent | sw/multes_client_library_priv/ops/array_ops.go:79-130 | below 2^24 elements no two jobs disagree about a key |
| ArrayStore.InterleavingDoesNotMatter | sw/multes_client_library_priv/ops/array_ops.go:59-130 | below 2^24 elements every schedule of any number of workers leaves the same store and counts the same errors |
| ArrayStore.LastElementHitsDirectory | sw/multes_client_library_priv/ops/array_ops.go:89-91 | an array of 2^24 elements is accepted, and its last element has the directory's key |
| ArrayRace.JobWordsDifferIff | sw/multes_client_library_priv/ops/array_ops.go:89-91 | for accepted lengths, all jobs have keys of their own if and only if there are fewer than 2^24 elements |
| ArrayRace.FullLengthRaces | sw/multes_client_library_priv/ops/array_ops.go:59-130 | with 2^24 elements and two workers there are two finished schedules, one leaving the directory and one the last element under that key |
| ArrayRace.SchedulesDisagree | sw/multes_client_library_priv/ops/array_ops.go:59-130 | for instance with empty elements, whose stores then differ |
| ArrayStore.ArrayGet | sw/multes_client_library_priv/ops/array_ops.go:183-212 | the loop over the directory is `ReadArray` |
| ArrayStore.ArrayReadsBack | sw/multes_client_library_priv/ops/array_ops.go:183-212 | after a set without errors it reads the first chunk of each element the first directory chunk lists; an empty array reads back as none at all |
| ArrayStore.ArrayRoundTripIff | sw/multes_client_library_priv/ops/array_ops.go:183-212 | after any schedule without errors, for every accepted length, the array comes back if and only if it is not empty, the directory fits one chunk and every element has 1 to `cLen` bytes |

## Left out

Replication and the wire:

- Exceptions of socket writes, which `Node.process` prints and forgets: a connected peer takes every message. After an exception of `process` the loop of `run` goes on with the next queued request, as the cluster model does; what it does after one of `Request.parse`, which leaves keys selected and bytes in its buffers, is not modelled.
- SYNCREQ and SYNCRESP recovery, peers added to a running group, changes of epoch or leader: `Node` does nothing with them that recovers. `OPCODE_SYNCRESP_BULK`, which `Node` mentions, is not defined in `Request.java`. Opcodes that only print have no effect in the model.
- Payloads at the followers: a follower stores nothing, so `ProposalsCarryWrites` says which payloads it is sent for a zxid, and nothing says what it does with them.
- The wrap of a zxid at 2^32 on the wire: the cluster model passes requests, not bytes. `Wire.FourRoundTripIff` says when the bytes carry it.
- Several connections sharing one `bufB`: reassembly is stated for one connection.
- RoundTripIff: counts payload words exactly, where `Request.java:97` divides in `float`; the two differ only above 2^24 bytes, where a request does not come back in either.
- WritesMoveEveryNode: is about runs that end at rest; for one write `OneWriteConverges` needs only that nothing sent is lost, and `ConvergesIffInOrder` says for several when they end at rest.
- ScriptConfigures: the script's messages carry port 0; an impossible port, on which `Process` throws, never gets that far, since the script connects to it first.

The pattern compiler:

- ParseMirrored: the fixed buffers inside tokens and states (`temp[128]`, `MAX_CHARS` characters, `MAX_STATES` edges per state) are unbounded here. More than 128 characters in a row, or more than 32 edges at one state, as by many `+` signs, are outside what the array bounds of the code allow.
- LayOut: answers that the text is too long where `fregex.cpp:569-577` writes one element past its arrays before it returns 0; that write is not modelled.
- GetConfig: requires what its callers pass, a number of characters that is a multiple of 16 and an even number of states; other sizes are not modelled.
- CompiledAcceptsPattern: is about alternatives of equal lengths and a last piece without `+` or `.*`; `FixupSkips`, `LinkedRenameBreaks` and `LastAlternativeIsLost` show what the others lead to, and `CompiledAcceptsUneven` covers alternatives of different lengths.
- CompiledAcceptsUneven: needs a place left for the last state, and says that no word is lost only where pieces with alternatives of different lengths stand between others, without plus or gap. Other patterns may lose words, or not, as when a lost alternative is written twice.
- TablesAcceptLanguage: `TableAccepts` is the language of the paths through the tables. The delays of the states (`rem_onestate.v`), the rule that a state without incoming edges is always active, and the flag for letters of either case are not part of it; `EntryAlwaysActive` says which entry states have no incoming edges and `LengthTable` which lengths are right.

SHA-256:

- Mode strings other than the two known ones, verbose printing, padding of messages to blocks.

Rotation and the column store:

- `GetBestRotationMatrix`, `Normalize`, and sines and cosines: the scores compare rounded floating-point sums. Matrices take any s and c with s^2 + c^2 = 1, over the reals.
- RotateData3D: gives every record its own width, where the code takes the width of the first record for all; the same for data whose records have one width.
- The random source is a given sequence of numbers; a call that would draw on is `Waiting`.
- BYTE_ARRAY columns, dictionary pages, snappy, thrift and the parquet file format: a stored value is a list of uncompressed pages, and an entry is eight bytes. A page of a generated file whose first byte is neither 2 nor 3 is read from its beginning.
- GetPerturbedRows: starts from zero offsets, as `resetOffsets` and every successful call leave them; what a call finds after one that failed half-way is not modelled. Pages whose length is not a multiple of eight are one kind of failure, although Go may read past the end of a slice within its capacity. An absent directory, for which the code answers nothing, is outside the model.
- The server is a function from requests to replies; its rotation is any function of three requests.

Values and arrays:

- The multi-chunk path of `Get`, which the code cannot reach, and `Delete` on values written by `set`, which store no count.
- The counting of the wait group, failed connections of workers, and zero workers, for which the call never ends; `WorkGetsDone` shows that no step is possible then.
- Bytes left over on a network connection after a reply.
