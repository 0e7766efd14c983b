# Verification of the NFC agent's card path

A Dafny model of the NFC agent, from the reader's operation slot down to the bytes on a tag,
with the log ring and the agent's lifecycle beside it. Cards, readers and components are free
to answer as they like: every claim is about all answers, all interleavings or all inputs.
`dafny verify dfyconfig.toml` checks the whole project.

## What is modelled

- **Reader slot, lease and stop** (`Counting`, `SlotDiscipline`, `ReaderProtocol`,
  `ReaderSafety`, `ReaderTheorems`). Goroutines are program counters; one step is one lock
  section or channel action, and any goroutine may take the next. `ReaderSafety` shows that
  each step keeps a discipline over tokens, WaitGroup shares and lease duties, and
  `ReaderTheorems` reads the promises off it for every reachable state.
- **NTAG 424 DNA driver** (`Ntag424Card`, `Ntag424Keys`, `Ntag424Tag`, `Ntag424Session`,
  `Ntag424Files`, `Ntag424Ops`, `Ntag424Runs`). The card has a session of its own, answers
  from an oracle, may or may not have acted when an answer is lost, and keeps the whole
  history of exchanges. The bodies that `withSession` runs are a datatype. A ghost score
  counts what was sent, changed, noted and confirmed.
- **Tag memory** (`Tlv`, `ClassicLayout`, `ClassicTag`, `ClassicFormat`, `Type4Plan`,
  `Type4Offsets`, `Type4Tag`), each driver a refinement of "a tag stores one NDEF message".
- **Codecs and chaining** (`Ndef`, `NdefPayloads`, `Apdu`, `Chain`).
- **Verified write, then lock** (`WriteAndLock`), **log ring** (`LogLines`, `LogRing`) and
  **agent lifecycle** (`Lifecycle`).

## Where the code and its promises part

- **Late exchange.** A lease may end while an exchange is past its `ended` check, so that
  exchange can share the card with the next slot holder. `ReaderTheorems.CardIsExclusive`
  shows this is the only overlap, `ReaderTheorems.AtMostOneLateExchange` that there is one at
  most, and `ReaderTheorems.LateExchangeCanOverlap` that it happens.
- **15-bit offsets.** A Type 4 message is stored exactly when every chunk starts below 2^15
  (`Type4Offsets.WriteStoresIffFits`), its write never tears exactly then
  (`Type4Offsets.TearFreeIffFits`), and it is read back from every card exactly when it ends by
  2^15 (`Type4Tag.ReadReturnsIffShort`).
- **SDM report, nothing written.** When the NDEF file's settings can be neither read nor counted
  as denied, the write falls back to the ISO path without a note, and every failure is reported
  as "nothing written". That is false exactly when the card answered the four opening exchanges
  well and the message fits the container, which is when the first update is sent
  (`Ntag424Ops.ConfigureSDM`, and `Ntag424Ops.FalseReports` by the card's answers from the first
  on; `Ntag424Runs.FallbackMisreports` is such a run).
- **SDM report, interrupted.** A file open to anyone in plain is written over the ISO path, and
  the write is noted before the application is selected. Every failure is then reported as an
  interrupted NDEF write, which is false exactly when one of the four opening exchanges failed
  or the message does not fit the container, so that no update was sent
  (`Ntag424Runs.InterruptionMisreports`). All other reports are true.
- **ISO estimate.** The time asked for before an ISO write is said never to be short. What the
  write sends is within it for every message exactly when the card's MLc is 0 or at least 239
  (`Ntag424Files.IsoEstimateCovers`).
- **Settings estimate.** The time asked for before a change of settings counts one exchange for
  reading them. Without an open session the read takes a select as well. A change that succeeds,
  with no session lost, no LRP discovered and no UID to resolve, sends no more than it asked for
  exactly when a session was open or the card did not answer that select well
  (`Ntag424Ops.ChangeFileSettings`). `Ntag424Runs.EstimateFallsShort` is a run that was found to
  fit its budget, sends six exchanges where five were asked for, and ends after the deadline.
- **Missed route.** A file whose first right names a key that is not held is refused although its
  read-write right names one that is: `Ntag424Keys.RouteMisses` says that this is the only case,
  and `Ntag424Keys.RouteMissed` is one.
- **Locking an NTAG 424 file.** `MakeReadOnly` keeps read access for a file readable only
  through its read-write right. A key that reads through that right while another key holds
  the read right loses access: `Ntag424Keys.LockedKeepsReaders` says exactly when nobody does,
  and `Ntag424Keys.ReaderLost` is a file where one does.
- **Lock after a verified write.** The write options promise a lock after a verified write.
  A lock that is sent follows a matching read exactly when verification is not skipped, the
  tag's reads are no snapshots, and it does not write and lock in one operation
  (`WriteAndLock.LockMeans`; `WriteAndLock.UnverifiedLock` and `WriteAndLock.LockedBeforeRead`
  are runs where it does not).

## Model

| member | source | states |
|---|---|---|
| `ReaderSafety.MoveFair` | nfc/reader_lease.go:67-253 | every step of every goroutine, by what it holds before and after, is a fair change of tokens, WaitGroup shares, exec and lease duties |
| `ReaderSafety.StepKeeps` | nfc/reader.go:1324-1380 | the invariant over slot, gate, WaitGroup and leases is kept by every enabled step |
| `ReaderSafety.RunKeeps` | nfc/reader_lease.go:67-174 | and so by every run |
| `ReaderTheorems.SlotCountsHolders` | nfc/reader.go:1324-1380 | in every reachable state the tokens in opSlot are the callers, running operations, polls and unreleased leases, at most one; r.lease is set only to a lease not released |
| `ReaderTheorems.ReceiveTakesOwnToken` | nfc/reader_lease.go:156-174 | a goroutine at the receive from opSlot never blocks, and no other goroutine or lease owns the token it takes |
| `ReaderTheorems.LeaseReleasedOnce` | nfc/reader_lease.go:156-174 | over any run, however many parties end a lease, its token goes back at most once, by the party that marked it |
| `ReaderTheorems.WaitGroupCounts` | nfc/reader.go:1333-1349 | opsWg is the registered operations plus the opening leases plus the lease watchers |
| `ReaderTheorems.GateStaysClosed` | nfc/reader.go:352-372 | once opsClosed is set it stays set and opsWg never rises, over every continuation |
| `ReaderTheorems.DrainedStopIsQuiet` | nfc/reader.go:331-372 | after a drain that completed no operation is registered or running and every lease has ended, for good |
| `ReaderTheorems.ExchangesDoNotOverlap` | nfc/reader_lease.go:213-244 | two exchanges of one lease are never on the card together |
| `ReaderTheorems.AtMostOneLateExchange` | nfc/sequence.go:150-182 | over any run at most one exchange reaches the card on a lease that has ended, single exchanges and sequence steps alike |
| `ReaderTheorems.CardIsExclusive` | nfc/reader.go:737-744 | when two parties are on the card, be they operations, polls, leases being opened or exchanges, one is an exchange on an ended lease |
| `ReaderTheorems.LateExchangeCanOverlap` | nfc/reader_lease.go:156-174 | a reachable state in which such an exchange overlaps the next operation |
| `Ntag424Keys.ResolverNotDerived` | nfc/tag_ntag424.go:222-237 | the key picked to resolve the UID never itself derives from the UID |
| `Ntag424Keys.RouteIsGranted` | nfc/tag_ntag424.go:629-659 | the ISO path is chosen exactly for files open to anyone in plain; a session only under a held key that a right grants |
| `Ntag424Keys.RouteMisses` | nfc/tag_ntag424.go:642-658 | no route is found although a held key is granted exactly when the first right names a key not held and the read-write right a held one |
| `Ntag424Keys.RouteMissed` | nfc/tag_ntag424.go:642-658 | a key set and settings for which a held key is granted and no route is found |
| `Ntag424Keys.LowestHeld` | nfc/tag_ntag424.go:157-164 | the lowest key number held, if any |
| `Ntag424Keys.LockedDeniesWrites` | nfc/tag_ntag424.go:942-962 | no key set has a write route to a locked file, and the change right is as before |
| `Ntag424Keys.LockedKeepsReaders` | nfc/tag_ntag424.go:954-960 | exactly when every key that could read before a lock can read after it |
| `Ntag424Keys.ReaderLost` | nfc/tag_ntag424.go:954-960 | settings under which a key loses its read access to a lock |
| `Ntag424Tag.LockoutBound` | nfc/tag_ntag424.go:346-375 | a history in which each authentication was tried with a key not refused before and no delay asked for has at most one refusal per key and no authentication after a 91 AD |
| `Ntag424Tag.BookMeans` | nfc/ntag424_budget.go:86-120 | the driver's ledger is the number of exchanges, the time they took and their score |
| `Ntag424Tag.Tag.AuthRefused` | nfc/tag_ntag424.go:478-490 | a refusal is remembered as a delay or as the key's failure, which keeps the memory equal to what the card refused |
| `Ntag424Tag.Tag.AuthenticateLrp` | nfc/tag_ntag424.go:443-475 | two exchanges that end with the card's and the driver's session equal, or none held |
| `Ntag424Tag.Tag.OpenSession` | nfc/tag_ntag424.go:377-431 | select, then the two parts in the suite the card shows: three exchanges unless LRP is discovered, and agreement on the session |
| `Ntag424Tag.Tag.WriteNdefBody` | nfc/tag_ntag424.go:791-803 | what the card confirms follows the plan in order; on failure a prefix of it and one more command, each noted before it was sent |
| `Ntag424Tag.Tag.WriteChunks` | nfc/tag_ntag424.go:807-826 | the chunks are the plan's next updates, each noted first |
| `Type4Plan.PlanLength` | nfc/tag_ntag424.go:829-832 | for every chunk size the plan has one update per chunk, as writeChunkCount counts them, between the clear and the length |
| `Ntag424Session.KeyFor` | nfc/tag_ntag424.go:197-217 | a key is held for the number and its UID is known, with no refusal on the way; nothing is sent unless the key derives from an unknown random UID |
| `Ntag424Session.ResolveUid` | nfc/tag_ntag424.go:240-261 | asked at most once per key set unless the card left; terminates with KeyFor, Authenticate and WithSession |
| `Ntag424Session.FetchRealUid` | nfc/tag_ntag424.go:263-286 | success means that the real UID is known, as the card's last answer gave it |
| `Ntag424Session.Authenticate` | nfc/tag_ntag424.go:346-431 | the open session at no cost, or a new one the card holds too; a barred key is not tried; with no UID to resolve and no LRP discovered it sends what authExchanges says; with a key that is ready, a card that answers well opens one |
| `Ntag424Session.WithSession` | nfc/tag_ntag424.go:496-512 | the body runs at most twice, the second time only after a lost session; sessions agree afterwards unless the body ended them; changing commands equal noted ones; what it returns is what the card said or confirmed last; no loss means exactly the estimated exchanges; a body that fails leaves no session where none was; a card that answers well takes a single change |
| `Ntag424Session.ReadNdefBody` | nfc/tag_ntag424.go:694-713 | from reads that show one file, the message that file stores, or none when it is empty; nothing on the card changes |
| `Ntag424Files.GetFileSettings` | nfc/tag_ntag424.go:531-583 | the settings of this file as the card's last answer gave them, in the session, plainly or under key 0; unless key 0 is needed the card's first answers say what it comes to and how many exchanges it takes; nothing on the card changes and sessions agree |
| `Ntag424Files.ReadData` | nfc/tag_ntag424.go:671-721 | over the route the settings leave, from a card whose reads show one file, the message that file stores; nothing changes and sessions agree |
| `Ntag424Files.WriteNative` | nfc/tag_ntag424.go:785-803 | nothing is sent without the time for it; with no loss, LRP discovery or UID to resolve it sends at most what it asked for, exactly that on success, and ends by the deadline if no exchange exceeds the estimate |
| `Ntag424Files.IsoWrite` | nfc/tag_iso14443.go:165-195 | it changes the card exactly when the card opens the file and it has room, succeeds exactly when every update of the plan in the card's own chunk is then confirmed, and sends four exchanges and the plan |
| `Ntag424Files.WriteIso` | nfc/tag_ntag424.go:773-784 | nothing is sent without the time for it; it is noted before the first select, and ends by the deadline if it sends no more than was asked for and no exchange exceeds the estimate |
| `Ntag424Files.IsWritable` | nfc/tag_ntag424.go:857-871 | settings that were read: true exactly when they leave a write route; denied: false; unreadable otherwise: true exactly when the next three answers show a container open to writing; an error only when the card left; nothing changes and sessions agree |
| `Ntag424Files.WriteAfter` | nfc/tag_ntag424.go:754-803 | the path is the one the outcome of the settings read leaves, the fallback exactly for an error that is neither removal nor denial; on the ISO path the answers decide what was sent and whether it succeeded |
| `Ntag424Files.WriteData` | nfc/tag_ntag424.go:753-804 | the same after a settings read that the card answered with those settings, or in which it showed none; with or without a session open the card's answers say what that read comes to and where the write starts, unless key 0 is needed; what was noted, sent and confirmed, the whole plan on success |
| `Ntag424Files.IsoEstimateCovers` | nfc/tag_ntag424.go:773-779 | what an ISO write in the card's chunk sends is within what is asked for, for every message, exactly when MLc is 0 or at least 239 |
| `Ntag424Ops.SetKeys` | nfc/tag_ntag424.go:126-137 | equal keys reset nothing; different keys drop the session and the lockout memory |
| `Ntag424Ops.Transceive` | nfc/tag_ntag424.go:315-321 | no session is held across a client's own APDU |
| `Ntag424Ops.ChangeFileSettings` | nfc/tag_ntag424_ops.go:98-144 | settings changes sent equal those noted, and one carrying these settings is confirmed exactly on success; a success with nothing lost, discovered or to resolve is within the time asked for exactly when a session was open or the select before the settings read failed; a card that answers well takes the change in six exchanges |
| `Ntag424Ops.MakeReadOnly` | nfc/tag_ntag424.go:942-962 | success means the card confirmed the locked form of settings of the NDEF file that it showed during the call |
| `Ntag424Ops.ChangeKey` | nfc/tag_ntag424_ops.go:146-174 | success means that the card confirmed the change of this key; sessions agree, and none is held after the session's own key changed; changes equal notes |
| `Ntag424Ops.EnableLRP` | nfc/tag_ntag424_ops.go:187-206 | after the confirmed switch no session is held and the mode is remembered |
| `Ntag424Ops.GetCardUid` | nfc/tag_ntag424_ops.go:208-225 | the real UID; nothing is sent when it is known or the card presents no random one |
| `Ntag424Ops.ResolveUidForReader` | nfc/tag_ntag424.go:291-296 | nothing is asked again once it was tried for these keys, and nothing on the card changes |
| `Ntag424Ops.GetKeyVersion` | nfc/tag_ntag424_ops.go:227-252 | the card's answer for this key, in the session or plainly, leaving sessions in agreement |
| `Ntag424Ops.ReadSignature` | nfc/tag_ntag424_ops.go:254-273 | the card's answer, under the open session's key or the lowest held, leaving sessions in agreement |
| `Ntag424Ops.ConfigureSDM` | nfc/tag_ntag424_ops.go:287-322 | for every failure and every card the state reported is true of what was sent and confirmed exactly when it is not one of two false reports, each given by the path the settings read left and the card's next four answers; what that read comes to and where the write starts follow from the card's answers, with a budget or without, unless key 0 is needed |
| `Ntag424Ops.FalseReports` | nfc/tag_ntag424.go:753-784 | both false reports as an if-and-only-if over the card's answers from the first exchange on: unreadable settings with a write that sends an update and does not complete, and without a budget an open file with room whose write sends none |
| `Ntag424Ops.WriteReported` | nfc/tag_ntag424_ops.go:300-308 | by the path of a failed write, the state named and exactly when it is true |
| `Ntag424Ops.ConfiguredKey` | nfc/tag_ntag424_ops.go:66-72 | a key held for this card, or an authentication error |
| `Ntag424Ops.ReadOriginality` | nfc/tag_ntag424_ops.go:275-285 | the signature the card gave last and its real UID |
| `Ntag424Runs.InvariantsAreSound` | nfc/tag_ntag424.go:300-321 | the two driver invariants mean session agreement, at most one refusal per key and silence after 91 AD |
| `Ntag424Runs.Run` | nfc/tag_ntag424.go:346-583 | over every run of operations and every card, these hold at each operation boundary |
| `Ntag424Runs.FallbackMisreports` | nfc/tag_ntag424.go:759-763 | a card on which "nothing written" is reported after an update was sent |
| `Ntag424Runs.InterruptionMisreports` | nfc/tag_ntag424.go:781-783 | a card on which an interrupted write is reported though none was sent |
| `Ntag424Runs.EstimateFallsShort` | nfc/tag_ntag424_ops.go:98-144 | a card on which a change of settings found to fit the budget sends six exchanges for the five asked for and ends after the deadline |
| `Tlv.TLVEncode` | nfc/tlv.go:16-41 | type, short or truncated long length, value, terminator |
| `Tlv.TLVFindNDEF` | nfc/tlv.go:154-211 | the value of the first NDEF record before a terminator |
| `Tlv.PrefixStable` | nfc/tlv.go:154-211 | a value found in a prefix is found in every extension |
| `Tlv.FindsEncoded` | nfc/tlv.go:16-41 | after any other records and before anything, an encoded message is found whole exactly when its length is below 65536 |
| `ClassicLayout.AuthBlockInSector` | nfc/tag_classic.go:94-95 | the authentication block lies in the physical sector of the block, on 1K and 4K |
| `ClassicLayout.DataBlocksAre` | nfc/tag_classic.go:325-333 | the data blocks are exactly the non-trailers, in ascending order |
| `ClassicLayout.AreaSize` | nfc/tag_classic.go:288-300 | 45 blocks on 1K, 213 on 4K |
| `ClassicTag.AuthenticateSector` | nfc/tag_classic.go:94-150 | success means that the card is authenticated with the sector's block |
| `ClassicTag.ReadBlock` | nfc/tag_classic.go:153-178 | the block's contents, from a card that gives them whole, with the last authenticated sector tracked |
| `ClassicTag.WriteBlock` | nfc/tag_classic.go:181-210 | at most one write, under the block's own authentication |
| `ClassicTag.ReadData` | nfc/tag_classic.go:212-276 | what it returns is the message of the whole memory though it stops early and reads may fail; a card that answers gives its message or none |
| `ClassicTag.PlanIsSafe` | nfc/tag_classic.go:302-319 | each block is written at most once, only non-trailers from 4 up, each authenticated in its own sector |
| `ClassicTag.WriteData` | nfc/tag_classic.go:278-322 | too large means nothing sent; otherwise only safe writes, trailers and sector 0 unchanged, and on success the message is what a search of the memory finds |
| `ClassicTag.WriteThenRead` | nfc/tag_classic.go:212-322 | a read after a write that succeeded returns the message; a card that answers takes and returns every message that fits |
| `ClassicFormat.ConsistentIffStored` | nfc/tag_classic_format.go:206-214 | access bytes are consistent exactly when they store some conditions |
| `ClassicFormat.ConditionStored` | nfc/tag_classic_format.go:218-224 | the trailer condition read back is the one stored for it |
| `ClassicFormat.TrailersRecoverable` | nfc/tag_classic_format.go:43-58 | both trailers written are consistent and rewritable with key B |
| `ClassicFormat.MadCrc` | nfc/tag_classic_format.go:177-190 | the CRC of the directory, bit by bit |
| `ClassicFormat.CrcDetects` | nfc/tag_classic_format.go:177-190 | two directories that differ in one byte have different CRCs |
| `ClassicFormat.AlwaysRecoverable` | nfc/tag_classic_format.go:75-135 | after any prefix of the writes, whichever the card took, each trailer is its original or recoverable |
| `ClassicFormat.PlanGentle` | nfc/tag_classic_format.go:108-133 | every write of the plan to a trailer is recoverable |
| `ClassicFormat.WriteMad` | nfc/tag_classic_format.go:143-173 | the directory blocks and the trailer of sector 0, in order |
| `ClassicFormat.FormatAndWrite` | nfc/tag_classic_format.go:75-137 | 4K or too large: nothing sent; failed preflight: no write; then a prefix of the plan with trailers recoverable; on success sector 0 holds the directory, the data blocks the TLV and zeros, and the message is found |
| `Type4Plan.PlanIsTearFree` | nfc/tag_iso14443.go:165-195 | after any prefix of the updates the file stores the old message, none, or after the last the whole new one |
| `Type4Offsets.WriteStoresIffFits` | nfc/apdu.go:226-237 | the updates as they reach the card store every message of this length exactly when each chunk starts below 2^15 |
| `Type4Offsets.TearFreeIffFits` | nfc/tag_iso14443.go:165-195 | the updates as they reach the card never tear a message of a length NLEN holds exactly when each chunk starts below 2^15 |
| `Type4Tag.WireOffset` | nfc/apdu.go:226-237 | P1 and P2 carry the offset modulo 2^15 |
| `Type4Tag.ParseType4CC` | nfc/tag_iso14443.go:69-89 | the file ID, size and limits of the first NDEF File Control TLV, or the defaults |
| `Type4Tag.ContainerRoundTrip` | nfc/tag_iso14443.go:69-89 | a well-formed container parses back to its fields |
| `Type4Tag.ReadReturnsIffShort` | nfc/tag_iso14443.go:124-163 | the read returns every stored message of n bytes from every card that answers each read with something, exactly when it ends by 2^15 |
| `Type4Tag.ReadLoopReads` | nfc/tag_iso14443.go:147-160 | below 2^15 the loop collects the file's bytes however the answers are cut |
| `Type4Tag.ReadData` | nfc/tag_iso14443.go:124-163 | succeeds exactly when the card opens the file, gives its length and the loop collects the message, which it returns; no payload only for an empty file |
| `Type4Tag.WriteData` | nfc/tag_iso14443.go:165-195 | the file takes a prefix of the planned updates, and all of them on success, which comes exactly when the card opens the file, has room and takes each; none when the message is too long |
| `Type4Tag.WriteThenRead` | nfc/tag_iso14443.go:124-195 | the file is never torn, a write and a read that succeed return the message, and on a card that answers both do for every non-empty message the file and fifteen bits hold |
| `Ndef.RoundTripIffFits` | nfc/ndef.go:158-354 | an encoded message followed by anything parses back to its records exactly when TNF, lengths of type and ID, and payload fit the layout |
| `Ndef.ParseFrom` | nfc/ndef.go:158-258 | terminates on every input, and every parsed record fits the layout |
| `Ndef.EncodeRecords` | nfc/ndef.go:261-354 | the loop over buffers produces the encoding, and none for no records |
| `Ndef.ParseRecords` | nfc/ndef.go:158-258 | the loop over the offset produces the parse |
| `NdefPayloads.TextRoundTrip` | nfc/ndef.go:93-146 | the text comes back for every language code |
| `NdefPayloads.MakeUri` | nfc/message.go:248-265 | the payload abbreviates by the first longest prefix of the table |
| `NdefPayloads.UriRoundTrip` | nfc/message.go:248-281 | it gives back the URI, and no payload that does is shorter |
| `NdefPayloads.PosterRoundTrip` | nfc/message.go:369-396 | a Smart Poster's payload parses to its records, which give title and URI |
| `Apdu.BuildRoundTrip` | nfc/apdu.go:95-120 | the card reads each command as meant, short or extended, and one is built exactly up to 65535 bytes |
| `Apdu.ExtendedRoundTrip` | nfc/apdu.go:130-157 | the same for extended commands, with 0 and 65536 both the most |
| `Apdu.ResendIsRebuilt` | nfc/apdu_chain.go:31-57 | the re-send of a short command is the command built with the corrected Le; an extended one is not rewritten |
| `Chain.ExchangeChained` | nfc/apdu_chain.go:71-100 | what is sent is the command and its follow-ups, at most 66, each the answer to the reply before, as far as it is asked for; with status words throughout, the result is all data fields and the last status word |
| `Chain.DecideStop` | nfc/sequence.go:49-71 | stops exactly on a status word to stop on, or one not expected |
| `Chain.ValidateSequence` | nfc/sequence.go:75-88 | one to 32 steps, each with a command |
| `Chain.RunSequence` | nfc/sequence.go:94-116 | everything sent is the steps that ran and their follow-ups, each reply is what the card's answers to that step come to, and all ran unless one stopped the run; after a failure, which is an unanswered exchange, it is the steps that ran and then the failing step's command and its follow-ups |
| `Chain.RanMeans` | nfc/sequence.go:94-116 | replies and follow-ups are aligned and are what each step comes to, and only the last reply stops the run |
| `WriteAndLock.WriteMessageToCard` | nfc/reader.go:1011-1087 | every attempt but the last was retried, and the last decides the outcome, within the limit |
| `WriteAndLock.ResultMeans` | nfc/reader.go:1042-1087 | attempts equal the writes sent; nothing follows a permanent fault; verified exactly when the last thing asked was a matching read |
| `WriteAndLock.LockCard` | nfc/reader.go:1293-1308 | one lock command for a tag that can lock |
| `WriteAndLock.WriteMessage` | nfc/write_and_lock.go:24-46 | a lock is sent only after the loop succeeded without locking, and locked is reported exactly when it was done |
| `WriteAndLock.LockMeans` | nfc/write_and_lock.go:36-43 | at most one lock, last, without an atomic write; and whatever locks follows a matching read exactly with verification on and no atomic write |
| `WriteAndLock.UnverifiedLock` | nfc/reader.go:1038-1040 | with verification skipped or snapshot reads, for every option set, a lock follows an unconfirmed write |
| `WriteAndLock.LockedBeforeRead` | nfc/reader.go:1149-1156 | an atomic write locks before anything is read back |
| `LogLines.CuttingDoesNotMatter` | logbuf/logbuf.go:101-126 | whatever the turns and the cuts, what is logged of a writer is the complete lines of its stream |
| `LogLines.LineRoundTrip` | logbuf/logbuf.go:231-252 | a line written with a source and a time gives its source and message back |
| `LogRing.Ring.Append` | logbuf/logbuf.go:151-169 | one more entry of the unbounded log, whose last entries the ring holds |
| `LogRing.Ring.Since` | logbuf/logbuf.go:178-194 | the surviving part of the unbounded log after a number, in order |
| `LogRing.Ring.WriteBytes` | logbuf/logbuf.go:101-148 | the completed lines that are not blank are logged, the rest kept |
| `LogRing.LevelWriter.Write` | logbuf/logbuf.go:81-99 | the same, with the writer's own level and partial line |
| `LogRing.Run` | logbuf/logbuf.go:70-194 | after any run of several writers the log holds each line whole at its writer's level, and a reader sees the last of it |
| `Lifecycle.Agent.Use` | agent/lifecycle.go:91-106 | registered exactly when stopped and the name is new |
| `Lifecycle.Agent.StopComponents` | agent/lifecycle.go:133-140 | the components up go down, last first |
| `Lifecycle.Agent.StartComponents` | agent/lifecycle.go:120-130 | all up in order, or the first i up, one failed, and those i down in reverse |
| `Lifecycle.Agent.OpenReaders` | agent/agent.go:379-411 | the supervisor is held exactly when it was built, and up on success |
| `Lifecycle.Agent.CloseReaders` | agent/agent.go:418-435 | nothing is held afterwards, on a partly started agent too |
| `Lifecycle.Agent.Start` | agent/lifecycle.go:145-193 | running with everything up, or stopped again with whatever came up taken down |
| `Lifecycle.Agent.Stop` | agent/lifecycle.go:197-219 | components in reverse, then the readers; stopped |
| `Lifecycle.Run` | agent/lifecycle.go:91-219 | over every serialized run the agent is stopped with nothing up or running with everything up, and each component's starts and stops alternate |

## Left out

- The `ev1`, `ev2` and `ntag424` packages are opaque: a command is its kind, and an answer is lost, refused, unverifiable or good. Building a command never fails; a key of the wrong length is not modelled.
- Framing-level `TransceiveRaw` does not drop an NTAG 424 session, so the runs of `Ntag424Runs` hold APDU-level operations only. A client's own APDU counts as no change and no authentication of the driver's.
- Ntag424Ops.ConfigureSDM: when the card shows the settings only under a held key 0, what the read comes to is tied to the settings it then showed, or that it showed none, and not foretold answer by answer.
- Settings cached for capability reports of the NTAG 424, and the check of the originality signature.
- SDM fields of file settings and the check of the mirrored URL are parameters of `ConfigureSDM`.
- The contents of an NTAG 424 file: updates the card confirmed are recorded, not stored, and reads are claims about any file that the answers agree with.
- ReaderTheorems.DrainedStopIsQuiet: the drain does not count polls, so a poll may still be on the card; the join of the worker is one step that may take any time.
- Time in the reader: whether a lease has outlived its time to live is a free choice of the watcher, and lease IDs are fresh names. `Stop`'s test and close of its channel are one step.
- Partial-update merge of messages: it drops record kinds it does not recognise. Only the overwrite path of a write is modelled, after the card's contents were read.
- WriteAndLock.WriteMessage: the back-off between attempts is not modelled.
- What counts as a blank line and as a date and time are parameters of the log ring; the time of an entry and subscribers are not modelled.
- 64-bit wrap-around of log sequence numbers and of exchange counters.
- UTF-16 text records are kept as bytes; decoding them is not modelled.
- ClassicTag.ReadBlock: a read that is answered well carries the block's sixteen bytes. The code takes an answer of any length as it comes, so a reader that gives part of a block is not modelled.
- MIFARE Classic sector reads and writes with a caller's key: straight-line code.
- Lifecycle.Agent.Start: the settings handed to the readers, the device pinned and the state hooks are not modelled.
- DESFire, NTAG21x and Ultralight drivers: the same shapes over simpler layouts, or weaker promises.
- Device manager, supervisor, tag cache, event fan-out, card filters, HTTP and WebSocket servers, console, tray, pairing, TLS and the JavaScript client.
