# Ghost Cache

Ghost Cache passes files between nodes over LoRa radios. A node advertises which
publications it holds, finds out what a neighbour holds that it lacks, asks for manifests,
signatures and chunks, and stores what it has verified. This project models that system
in Dafny and proves what it is for.

`dafny verify dfyconfig.toml` checks the whole project.

## How it is built

SHA-256 (section 6.2 of FIPS 180-4), CRC-32 and Ed25519 verification (section 5.1 of RFC
8032) are parameters: every result holds for each such function, and where a collision
would matter a lemma says at which two byte strings.

- `Bytes`, `Seqs`: octets, little-endian fields, sequences without repeats.
- `Radix`, `RadixWalk`: summaries by hexadecimal prefix, and the walk from a root summary
  to concrete IDs as a fast form of set difference.
- `Cobs`, `Frames`, `Records`, `StreamDecoding`, `ModemClient`: the serial line, from
  byte stuffing to the request and reply demultiplexer.
- `FirmwareCodec`, `Firmware`: the modem's own codec and its radio machine. The driver is
  nondeterministic: every call may return any code.
- `Manifests`, `Receipts`, `Assemblies`, `Stores`, `StoreOperations`: publications. The
  store is a map from paths to files; a write replaces one file atomically, fails before
  or fails after, and a crash may come between any two writes or removals.
- `NodeProtocol`, `Scheduler`: the packets of the node protocol, batches and waits.
- `Layouts`: where every field of every format stands, as the documents tabulate it.
- `NodeState`, `NodeSteps`: the node as a state machine, one function a handler. Time,
  randomness, the radio's answers, write failures and the choice among several matching
  acquisitions are inputs of each event; packets are arbitrary octets.
- `NodeInvariants`, `NodeSafety`, `NodeResults`, `NodeBounds`: what every reachable state
  has in common, and what that means.
- `NodeFrames`, `NodeOutcomes`, `NodeVerdicts`, `NodeGate`, `NodeFiling`: what a signature
  or a chunk decides, why and always when, the policy gate over whole runs, and the IDs of
  what is kept.
- `Restarts`, `NodeDurability`, `Crashes`, `Resumption`: what the next start finds again and
  goes on with, after a stop between two events or inside one.
- `NodeSources`, `Coverage`, `CoverageRuns`, `NodeStock`, `Numbering`, `Network`,
  `WalkProgress`, `WalkCost`, `Fairness`: that no discovery, nobody to ask for it and no
  complete object is lost, that walks end and what they cost, and that work takes turns.
- `NodeDuties`: what a node has to do: end what has no answer, advertise, ask for what is
  due.
- `Transfer`, `TransferRuns`, `Introductions`, `Demultiplexer`, `Exchanges`, `Deliveries`:
  from one node's disk to another's, manifest, signature and chunks, through the
  requester's own choice of the acquisition a reply belongs to, exchange by exchange until
  all of the content is there.
- `Namesakes`, `Rounds`: when that choice is certain, and how it comes not to be.
- `Runtimes`: the runtime as an object whose methods update its fields step by step, each
  equal to its function in `NodeSteps`.

## Where the code does less than one might expect

Each of these is kept as the code has it, with the exact condition beside it.

- Incoming packets may claim source 0, and the cap on acquisitions does not apply to it
  (`internal/node/runtime.go:427`): `NodeBounds.AddCandidateBound` says exactly when the cap
  is passed, `NodeBounds.SourceZeroOverflows` passes it.
- The manifest decoder of the node protocol admits file names of 136 to 141 octets, which
  the encoder, and so the store of known metadata, refuses: `Manifests.EncodeOfDecode` says
  exactly which, `Manifests.LongNames` gives them.
- Encoding a manifest does not check its chunk geometry, decoding does:
  `Manifests.DecodeOfEncode`.
- The receipt decoder ignores the unused bits of the last octet:
  `Receipts.ReceiptIsWritten`, `Receipts.PaddingIsIgnored`.
- A summary request may have trailing octets: `NodeProtocol.SummaryRequestExact`.
- Two records may decode to one frame, differing in a trailing octet 1, exactly where the
  last run of the raw frame fills its last block: `Frames.DecodeExact`, `Frames.TwoRecords`.
- A manifest that claims the signed version without a signature does not survive the
  journey: `Transfer.ManifestTravels`, `Transfer.UnsignedVersionTwo`.
- A complete object may stand under an ID that is not its content's, since validating it
  does not compare its manifest's ID with the directory (`internal/publication/store.go:32`):
  exactly if its manifest names another ID (`Stores.CompleteID`, `Stores.Misfiled`). The
  node never puts one there: `NodeFiling.RunFiled`.
- A partial directory whose manifest names another ID is resumed as an acquisition of the
  directory's ID (`internal/node/runtime.go:122`): `NodeFiling.MisfiledStart`. The invariant
  holds all the same (`NodeResults.StartKeeps`); results that speak of IDs require
  right names at the start, and `NodeFiling.StartNamed` and `NodeFiling.StartNames` say
  exactly from which disks a node has them.
- Replies are matched by number and source alone, also to acquisitions that wait for
  nothing (`internal/node/runtime.go:851`): an acquisition asked under the same number at
  the same source a round of the counter ago may swallow every answer
  (`Demultiplexer.StalePair`, reached by a run in `Rounds.StaleReached`), and this is the
  only case (`Demultiplexer.ExchangeExact`). It does not arise in the first round
  (`Namesakes.EarlySole`).
- Answers to reconciliation requests are matched in the same way
  (`internal/node/runtime.go:404`): under a number used again a late answer may end another
  request, and what this one covered is lost (`Network.ReusedNumber`).
  `Network.NumbersExact` says exactly when an answer is the right one, and
  `Network.EarlyNumbers` that it is so in the first round.
- An assembly with a wrong hash that cannot be started over stays in memory, whatever was
  already removed from disk (`internal/node/runtime.go:655`). `Restarts.RestartExact` says
  exactly when memory is ahead of the disk then, `NodeDurability.LosingStep` is such a step,
  and `NodeDurability.NothingForgotten` says that this is the only loss over whole runs.
- A transmission that cannot be started is answered by a result as well, not by an error
  (`firmware/heltec-modem/src/main.cpp:211`), so results and transmissions handed to the
  driver still match one to one.
- A batch always takes the lowest missing chunks of its window, so the cursor does not
  rotate inside a window: `Exchanges.AsksOnward`. Progress is claimed from delivered chunks
  only.
- An assembly that is complete but could not be committed is not tried again:
  `Exchanges.AsksIffMissing`, `NodeDurability.WholeRests`. `NodeVerdicts.LastChunk` says
  exactly what hinders a commit.

## Model

| member | source | states |
|---|---|---|
| Radix.FilterPrefix | internal/node/radix.go:63-78 | Filtering keeps exactly the IDs under the prefix, each as often as it was there, in byte order. |
| Radix.BuildSummary | internal/node/radix.go:41-57 | The loop over sixteen children computes the summary that the results below are about: one saturating count and one digest a child bucket, and an empty table at full depth. |
| Radix.CollectDiffering | internal/node/radix.go:80-91 | The children whose entries differ, in order; none if the prefixes differ. |
| Radix.MissingIDs | internal/node/radix.go:93-105 | The leaf IDs that the local inventory lacks, in leaf order, repeats kept. |
| Radix.LeqExact | internal/node/radix.go:114-117 | The order of IDs: where two strings first differ the smaller octet comes first. |
| Radix.SortedPermutation | internal/node/radix.go:114-117 | Sorting forgets the order of an inventory: equal multisets sort to the same list. |
| Radix.SummaryIgnoresOrder | internal/node/radix.go:31-61 | Generation, summary and leaf depend only on which IDs an inventory holds, not on their order. |
| Radix.DigestExact | internal/node/radix.go:119-126 | Digests are equal exactly if eight octets of the hash of the IDs in byte order are, and generations exactly if four are. |
| Radix.EntriesExact | internal/node/radix.go:41-91 | Entries are equal exactly if the saturated counts and those eight octets are. |
| Radix.EntriesDifferImpliesSetsDiffer | internal/node/radix.go:41-91 | For every hash: differing entries prove that the two buckets hold different sets. |
| Radix.EntriesEqualImpliesSetsEqual | internal/node/radix.go:41-91 | Equal entries prove equal buckets, if the eight octets kept of the hash do not collide on the two byte strings compared there. |
| Radix.GenerationsEqualImpliesSetsEqual | internal/node/radix.go:31-39 | Equal generations prove equal inventories, if four octets of the hash do not collide on the two byte strings. |
| Radix.PathInjective | internal/node/radix.go:107-112 | The thirty-two nibbles of an ID determine it. |
| Radix.FullDepthIsLeaf | internal/node/radix.go:63-78 | A full-depth prefix holds at most one ID of a duplicate-free inventory, so it is always answered by a leaf. |
| RadixWalk.WalkFollowsSummaries | internal/node/runtime.go:285-301 | The walk descends exactly into the children that comparing the two summaries names. |
| RadixWalk.WalkStaysUnder | internal/node/runtime.go:303-348 | For every hash: whatever a walk below a prefix yields is held by the remote side, lacked locally, and under that prefix. |
| RadixWalk.ReconcileExact | internal/node/radix.go:41-105 | For every hash, an ID is found if and only if the remote side holds it, the local side lacks it, and at no consulted prefix of its path do the two entries agree by a collision. |
| RadixWalk.ReconcileIsDifference | internal/node/radix.go:41-105 | Without collisions the walk yields exactly the set difference, without repeats. |
| RadixWalk.ReconcileDistinct | internal/node/radix.go:41-105 | No walk yields an ID twice, whatever the hash. |
| RadixWalk.ReconcileCost | internal/node/radix.go:31-126 | For every hash: at most 32 requests for each ID that exactly one side holds, no prefix twice, and each requested prefix covers such an ID. |
| RadixWalk.EveryRequestCovers | internal/node/radix.go:80-91 | No request is wasted: every prefix asked for below another lies under it and covers an ID that exactly one side holds. |
| RadixWalk.SameDepthDisjoint | internal/node/radix.go:63-78 | Different prefixes of one depth cover no common ID. |
| Cobs.EncodeHasNoZero | internal/modem/protocol.go:110-132 | An encoding contains no zero octet. |
| Cobs.EncodeBound | internal/modem/protocol.go:110-132 | Encoding n octets takes at most n + n/254 + 1. |
| Cobs.DecodeEncode | internal/modem/protocol.go:110-156 | Decoding inverts encoding on every byte string. |
| Cobs.DecodesExactly | internal/modem/protocol.go:134-156 | A zero-free record decodes to a content if and only if it is its encoding or, where the last run of nonzero octets is a multiple of 254, that encoding without its last octet. |
| Cobs.RecordsDetermined | internal/modem/protocol.go:134-156 | Two accepted records with the same content are equal, but for one trailing octet 1, and that only where the last run of the content fills its last block. |
| Cobs.CobsEncode | internal/modem/protocol.go:110-132 | The loop with its open code octet computes that encoding, within the bound. |
| Cobs.CobsDecode | internal/modem/protocol.go:134-156 | The loop accepts exactly the records that split into blocks, and yields their content. |
| Frames.ParseExact | internal/modem/protocol.go:70-108 | A raw record parses to a frame if and only if it is the one that frame builds, within 512 octets of payload. |
| Layouts.FrameLayout | internal/modem/protocol.go:70-108 | A raw frame is read exactly if its octets are those of the documented table: magic, version, type, number, length, payload and checksum, each at its offset, low octets first. |
| Layouts.FrameErrors | internal/modem/protocol.go:87-108 | Another version is reported as such, then a checksum that is wrong at the right length, and everything else as malformed. |
| Frames.DecodeExact | internal/modem/protocol.go:87-108 | A record decodes to a frame if and only if it is the encoding of the frame or, where the last run of the raw frame fills its last block, that encoding without the octet 1 that closes it. |
| Frames.TwoRecords | internal/modem/protocol.go:87-108 | Two different records of one frame: 250 nonzero octets of payload with a checksum without zeros. |
| Frames.RecordOfFrame | internal/modem/protocol.go:70-85 | Every frame of up to 512 octets of payload encodes to a zero-free record of at most 527 octets that decodes back. |
| Frames.BuildFrame | internal/modem/protocol.go:70-85 | Writing header, payload and checksum field by field gives that record and its delimiter. |
| Records.FeedConcat | internal/modem/decoder.go:10-44 | How a stream is cut into calls does not matter. |
| Records.RunsSeen | internal/modem/decoder.go:10-44 | Whatever the octets between delimiters are, each run of them is seen by itself: whole if it fits, as one overflow if it is too long, and not at all if it is empty. |
| Records.Recovery | internal/modem/decoder.go:10-44 | From any state, a zero octet followed by delimited records yields at most one event and then exactly those records. |
| Records.LimitsAgree | internal/modem/decoder.go:34-39 | Two accumulators with different limits see the same records as long as the smaller one does not overflow. |
| StreamDecoding.StreamDecoder.Push | internal/modem/decoder.go:10-44 | Pushing octets advances the splitter over them, reports the frames and the errors of its records in order, and never holds more than 544 octets. |
| StreamDecoding.EveryRunReported | internal/modem/decoder.go:10-44 | Nothing is lost silently: whatever the octets are, each run of them between delimiters that is not empty leads to exactly one report, a frame or an error. |
| StreamDecoding.FramesRecovered | internal/modem/decoder.go:10-44 | Resynchronisation: from any state, a zero octet and the encodings of any frames yield those frames exactly and in order, after at most one earlier frame or error. |
| ModemClient.Client.Send | internal/modem/client.go:91-103 | The sequence counter advances modulo 65,536 and the frame goes out with it, or nothing is written. |
| ModemClient.Client.ReadAvailable | internal/modem/client.go:203-230 | One read hands its octets to the decoder, and the frames they complete wait behind those that waited before. |
| ModemClient.Client.ReadFrame | internal/modem/client.go:119-144 | Delivers the oldest pending frame or the first one that the octets read spell; exactly the octets of the turns used are read, none of which but the last completed a frame; it times out only when the turns end or one of them ends past the deadline, and fails only where a read does; a failure delivers nothing and loses nothing. |
| ModemClient.Client.RequestWithRetry | internal/modem/client.go:152-201 | A reply that is pending, or that turns begun before the deadline bring, is taken, unless a read or a write fails first: no error leaves one behind. Time runs out only when no turn is left or the next one begins past the deadline, other errors are those of the last turn, and the command is written again exactly at the end of each turn by which the interval has passed since, before the deadline. A request takes the first frame with its own number that its caller accepts; all other frames that the octets ever read spell are those delivered, then those pending, in order. |
| ModemClient.WritesSpaced | internal/modem/client.go:165-201 | Writes of a command are at least the retry interval apart and within the timeout; with the timeout as interval there is one. |
| FirmwareCodec.CobsEncode | firmware/heltec-modem/src/main.cpp:77-91 | The in-place encoder writes the same encoding as the host and stays within the output array. |
| FirmwareCodec.CobsDecode | firmware/heltec-modem/src/main.cpp:93-109 | The in-place decoder accepts exactly what the host accepts and its array can hold, and writes the same octets. |
| FirmwareCodec.ImplementationsAgree | firmware/heltec-modem/src/main.cpp:195-199 | On every record of up to 527 octets the two implementations accept the same frames with the same fields. |
| Layouts.CommandLayout | firmware/heltec-modem/src/main.cpp:195-199 | The modem answers another version under the number of the frame, obeys exactly what the host would read, and ignores everything else. |
| FirmwareCodec.CommandsRecovered | firmware/heltec-modem/src/main.cpp:242-256 | From any accumulator state, a zero octet and a host's frames reach the command handler exactly and in order, after at most one earlier command. |
| FirmwareCodec.SendFrame | firmware/heltec-modem/src/main.cpp:111-120 | What the modem writes for a frame is what the host's encoder would, within the array; an oversized payload writes nothing. |
| Firmware.ConfigTravels | internal/modem/protocol.go:178-201 | Parameters that a host encodes are the ones the modem reads, and their form is never refused. |
| Layouts.ConfigLayout | internal/modem/protocol.go:178-201 | The fifteen octets of the radio parameters are those of the documented list, the last one zero. |
| Firmware.Modem.constructor | firmware/heltec-modem/src/main.cpp:284-342 | After boot the radio receives with the default parameters, or has failed with the code of the first call that failed; nothing has been sent and no command is half read. |
| Firmware.Modem.OnRadioInterrupt | firmware/heltec-modem/src/main.cpp:51-51 | The interrupt handler only raises its flag, and keeps the radio consistent. |
| Firmware.Modem.StartReceive | firmware/heltec-modem/src/main.cpp:155-165 | The machine receives or has failed with the driver's code, and a pending interrupt is forgotten. |
| Firmware.Modem.ConfigureRadio | firmware/heltec-modem/src/main.cpp:167-180 | Parameters are set in turn up to the first failure; only full success applies the whole configuration. |
| Firmware.TuningExact | firmware/heltec-modem/src/main.cpp:167-180 | A configuration succeeds exactly if all nine calls of the driver do, and otherwise has the code of the first that fails. |
| Firmware.Modem.SetConfig | firmware/heltec-modem/src/main.cpp:215-233 | A configuration takes effect wholly or is rolled back; if the rollback fails too, the radio is failed. |
| Firmware.Modem.Transmit | firmware/heltec-modem/src/main.cpp:204-214 | A transmission starts under its own sequence number, or is answered at once with the driver's code. |
| Firmware.Modem.HandleCommand | firmware/heltec-modem/src/main.cpp:195-240 | Every accepted command has one immediate answer with its own sequence number, but for a transmission that starts. INFO without payload is answered by the status; of TX payloads up to 255 octets are handed to the driver, as they are, while the radio receives; SET_CONFIG with fifteen octets, the last one zero, configures; SET_OLED with one octet up to 2 sets the mode; and each other case is refused with its code, -1 to -7 or that of the radio, and changes nothing. |
| Firmware.Modem.HandleRadio | firmware/heltec-modem/src/main.cpp:258-281 | A transmission that times out or is interrupted is answered once, with its own number; a received packet is passed on; the invariant of the radio is kept. |
| Firmware.Modem.HandleSerial | firmware/heltec-modem/src/main.cpp:242-256 | However the octets are cut, the commands read are exactly those of the records in them, and each octet makes of the machine what the command that it completes does, or nothing. |
| Firmware.HostReadsModem | firmware/heltec-modem/src/main.cpp:111-120 | A host decoder on the modem's serial line yields exactly the frames the modem sent, after what boot text happened to spell. |
| Manifests.DecodeOfEncode | internal/publication/protocol.go:72-112 | An encoded manifest decodes back exactly when its chunk geometry is right, and to nothing otherwise. |
| Manifests.EncodeOfDecode | internal/publication/protocol.go:72-112 | An accepted body is the encoding of what it yields, unless its file name is longer than the encoder admits. |
| Layouts.ManifestLayout | internal/publication/protocol.go:72-112 | A body is accepted exactly if its octets are those of the documented table, its ID is the prefix of its hash, and there are as many chunks as the content needs, at most 1424 of at most 178 octets. |
| Manifests.LongNames | internal/publication/protocol.go:72-112 | File names of 136 to 141 octets: a body that decodes to a manifest which cannot be encoded. |
| Manifests.ChunkBounds | internal/publication/assembly.go:21-31 | With valid geometry every chunk has between one octet and the chunk size, and the chunks follow each other up to the end of the content. |
| Manifests.ChunksCoverContent | internal/publication/protocol.go:94-112 | The expected chunk lengths add up to the content length, at most 253,472 octets. |
| Manifests.CanonicalInjective | internal/publication/signing.go:112-139 | Equal signed bytes force equal ID, hash, length, chunk geometry, file name and version. |
| Layouts.SignedLayout | internal/publication/signing.go:112-139 | What is signed are the nine documented fields in their order, behind the domain text. |
| Manifests.SignatureBinds | internal/publication/signing.go:112-168 | A signature binds what it signs: under a key and signature that verify over one message only, manifests whose signature holds are equal. |
| Manifests.AcceptExact | internal/node/policy.go:37-55 | The policy in one line: the signature holds, and either the publication is wanted or both the signer and, unless work had begun, the size pass. |
| Receipts.ReceiptReadsBack | internal/publication/protocol.go:142-169 | A receipt bitmap decodes back, within a packet of 200 octets. |
| Receipts.ReceiptIsWritten | internal/publication/protocol.go:142-169 | An accepted receipt is the encoding of what it says if and only if the unused bits of its last octet are clear. |
| Layouts.ReceiptLayout | internal/publication/protocol.go:156-169 | A count of two octets and a bit for each chunk, the lowest first. |
| Receipts.PaddingIsIgnored | internal/publication/protocol.go:156-169 | Two different receipts that decode to the same flags. |
| Receipts.BuildReceipt | internal/publication/protocol.go:142-154 | Setting bit after bit gives that bitmap. |
| Assemblies.Assembly.Add | internal/publication/assembly.go:21-41 | A chunk is taken if its index and length fit and it does not contradict what is there; otherwise nothing changes. |
| Assemblies.AddExact | internal/publication/assembly.go:21-41 | A chunk is taken exactly if it ends where the next one begins, or the content ends, and contradicts nothing that is there; it is then held, and nothing else has changed. |
| Assemblies.Assembly.Complete | internal/publication/assembly.go:44-53 | Complete says exactly that no chunk is missing. |
| Assemblies.Assembly.Content | internal/publication/assembly.go:55-67 | The joined chunks, once all are there and have the manifest's hash. |
| Assemblies.WholeJoins | internal/publication/assembly.go:55-67 | A whole assembly whose chunks are slices of a content joins to that content. |
| Stores.ReadManifestDecodes | internal/publication/store.go:408-417 | Validating a stored manifest by encoding and decoding it accepts exactly the encodable ones with right geometry. |
| Stores.SafeNameExact | internal/publication/store.go:280-284 | A file name is safe exactly if it is its own last path element and not a dot. |
| Stores.WantAdmits | internal/publication/store.go:215-229 | Whoever wants a publication gets it whatever the policy, as long as its signature holds. |
| Stores.KnownOnceSaved | internal/publication/store.go:159-192 | What has been saved is known, and a file in its place that is not its manifest is not. |
| Stores.CompleteDescribes | internal/publication/store.go:32-46 | On a disk whose manifests are filed under their IDs, a complete object is content with the length, the SHA-256 and the ID of a manifest whose signature, if any, holds. |
| Stores.CompleteID | internal/publication/store.go:32-46 | An object that is complete under an ID has the ID of its content if and only if its manifest names that ID. |
| Stores.Misfiled | internal/publication/store.go:32-46 | A one-octet object is complete under any ID, also one that is not that of its content. |
| Stores.ResumeExtends | internal/publication/store.go:245-316 | After a crash a partial directory that held an assembly loads to one with the same manifest and at least the same chunks. |
| Stores.ReadChunkSlice | internal/publication/store.go:258-278 | A complete object serves exactly the slices of its content, and refuses every other index. |
| Stores.ServedIsContent | internal/publication/store.go:258-278 | The chunks of a complete object, read in order, are its content. |
| Stores.CommitExact | internal/publication/store.go:333-362 | A commit succeeds exactly if the content is whole with the right hash, the signature holds, every write succeeds and every file of the partial directory is removed. |
| Stores.Inventory | internal/publication/store.go:122-143 | The inventory lists exactly the complete objects, each once. |
| StoreOperations.Store.WriteAtomic | internal/publication/store.go:423-453 | A write replaces one file as a whole or, failing, leaves it or replaces it; with a file that belongs there manifests stay filed under their IDs. |
| StoreOperations.Store.Begin | internal/publication/store.go:280-316 | Opening a partial directory yields the assembly its chunk files make up, and refuses unsafe names and conflicting manifests. |
| StoreOperations.Store.Add | internal/publication/store.go:318-331 | A chunk is added in memory and on disk or in neither; memory never runs ahead of the disk, and every disk a crash may leave still holds the old assembly. |
| StoreOperations.Store.Commit | internal/publication/store.go:333-362 | Publishes content, manifest and mark, and only then removes the partial directory: after a crash behind any write or removal the assembly can be resumed or the object is complete, and a new mark never stands without the content and the manifest that it marks. |
| StoreOperations.Store.Restart | internal/publication/store.go:364-369 | Starting over leaves no chunk of an earlier attempt. |
| StoreOperations.Store.SaveKnown | internal/publication/store.go:159-183 | Metadata is stored under its ID if it can be encoded, and not rewritten if it is there. |
| StoreOperations.Store.IDs | internal/publication/store.go:122-143 | Walking the object directory computes that inventory, in ID order. |
| StoreOperations.Store.AddFileSigned | internal/publication/store.go:52-98 | A local file of at most 253,472 octets with a name of at most 135 is published exactly if its name is safe, its signature holds, every write succeeds and every partial file is removed; it is complete then under the prefix of its hash with exactly its octets. If that ID is complete already, what is there is returned if hash, length and name agree, and refused otherwise, and nothing changes. |
| NodeProtocol.EnvelopeExact | internal/node/protocol.go:48-66 | Packets and their octets correspond one to one, within 200 octets. |
| Layouts.PacketLayout | internal/node/protocol.go:48-66 | A packet is read exactly if its octets are those of the documented table: magic, version, type, source, destination, number and body, within 200 octets. |
| NodeProtocol.PrefixWithTailExact | internal/node/protocol.go:325-375 | A prefix with a tail is read exactly where it was written: depth, length and the padding nibble are checked. |
| NodeProtocol.SummaryRequestExact | internal/node/protocol.go:234-247 | A summary request is read if and only if its encoding starts the body; trailing octets are tolerated. |
| Layouts.RequestLayout | internal/node/protocol.go:234-247 | A generation, a depth of at most 32 and two nibbles an octet, the first one high; what follows is not read. |
| NodeProtocol.SummaryExact | internal/node/protocol.go:249-284 | Summaries and their bodies correspond one to one, and fit a packet. |
| Layouts.SummaryLayout | internal/node/protocol.go:249-284 | Behind the prefix a count of two octets and a digest of eight for each of the sixteen children. |
| NodeProtocol.LeafExact | internal/node/protocol.go:286-323 | Leaves of up to ten IDs and their bodies correspond one to one, and fit a packet. |
| Layouts.LeafLayout | internal/node/protocol.go:286-323 | Behind the prefix a count of at most ten and as many IDs of sixteen octets. |
| NodeProtocol.ChunkRequestExact | internal/node/protocol.go:190-209 | Chunk requests for at most four chunks and their bodies correspond one to one. |
| Layouts.ChunkRequestLayout | internal/node/protocol.go:190-209 | ID, base and bitmap, whose bit k is that of index base + k, at most four of them set. |
| NodeProtocol.ChunkExact | internal/node/protocol.go:210-224 | Chunks and their bodies correspond one to one. |
| Layouts.ChunkLayout | internal/node/protocol.go:210-224 | An index and up to 178 octets of content. |
| NodeProtocol.SignatureExact | internal/node/protocol.go:155-182 | Signatures, present or absent, and their bodies correspond one to one. |
| NodeProtocol.Bits | internal/node/protocol.go:225-232 | The loop counts the set bits of an octet. |
| NodeProtocol.BuildPrefix | internal/node/protocol.go:325-343 | Writing nibble after nibble gives the packed prefix. |
| Scheduler.BatchExact | internal/node/scheduler.go:18-38 | A batch is the lowest missing chunks, at most four, of one window that starts at a multiple of eight, and is empty exactly when nothing is missing. |
| Scheduler.BatchWindow | internal/node/scheduler.go:18-38 | The window is that of the first missing chunk from the start on, around the end. |
| Scheduler.MissingBatch | internal/node/scheduler.go:18-38 | The two loops compute that batch and its bitmap. |
| Scheduler.BitmapBits | internal/node/scheduler.go:27-34 | The bitmap of a wanted set has exactly its bits, so no more than it has chunks. |
| Scheduler.Backoff | internal/node/scheduler.go:56-64 | The wait is between one and thirty-two seconds. |
| Scheduler.BackoffDoubles | internal/node/scheduler.go:56-64 | The wait starts at a second, doubles with each failure, and stays at thirty-two. |
| Scheduler.Jitter | internal/node/scheduler.go:10-16 | The interval stays within a fifth of the nominal one. |
| NodeResults.StartKeeps | internal/node/runtime.go:87-151 | A node starts with the invariant from any directory, whatever its files say, with whatever partial and wanted publications it finds. |
| NodeSafety.StepKeeps | internal/node/runtime.go:174-223 | Every octet string from the radio, every tick and every outside change of the store keeps the invariant: table, peers, jobs and inspected sources list each other and are bounded, at most one exchange is outstanding, the phases hold, what is assembled has a signature that holds or none. |
| NodeResults.Reachable | internal/node/runtime.go:153-172 | So it holds in every state of every run. |
| NodeResults.AtMostOneOutstanding | internal/node/runtime.go:365-410 | Waiting acquisitions and the active reconciliation together are at most one, and carry the current transaction number. |
| NodeResults.StaleReplyIgnored | internal/node/runtime.go:851-858 | A reply with any other transaction number changes nothing at all, even when after a wrap of the counter it matches an acquisition of the past. |
| NodeResults.OthersIgnored | internal/node/runtime.go:174-223 | A packet of the node's own, or for another node, changes nothing; of what is broadcast only summaries are heard. |
| NodeResults.ReplyTouchesOne | internal/node/runtime.go:505-681 | A manifest, signature or chunk that does anything comes from the node that was asked, with the current number, and leaves every other acquisition, every job and every peer as they were. |
| NodeResults.Phases | internal/node/runtime.go:746-800 | Waiting for a manifest means having nothing; for a signature, a staged manifest of this ID and the same source; for chunks, an incomplete assembly and one to four missing chunks of one window of eight. |
| NodeResults.Coherence | internal/node/runtime.go:225-256 | Order and table list each other, peers are at most 64 and jobs at most 256; every job, the active one included, carries its peer's generation, and no two ask for the same prefix of the same peer. |
| NodeSafety.ChunkRequestFits | internal/node/runtime.go:790-794 | What a node asks for always encodes, and reads back as what was asked: the errors that initiate ignores cannot occur. |
| NodeSafety.RootSummaryFits | internal/node/runtime.go:802-812 | The same for the root summary that is advertised. |
| NodeSafety.InitiateKeeps | internal/node/runtime.go:746-800 | Starting an exchange when none is outstanding keeps the invariant, sent or not. |
| NodeSafety.FinishKeeps | internal/node/runtime.go:655-675 | Every outcome of a commit, wrong hash and failed restart included, keeps it. |
| NodeBounds.AddCandidateBound | internal/node/runtime.go:424-441 | The table of acquisitions outgrows its cap if and only if a new ID comes from source 0 while it is full. |
| NodeBounds.RunBound | internal/node/runtime.go:424-441 | Over every run in which no packet claims source 0, there are never more than 256 acquisitions, or as many as the node started with. |
| NodeBounds.SourceZeroOverflows | internal/node/runtime.go:424-441 | A state and a packet from source 0 that lead to 257 acquisitions. |
| NodeOutcomes.AssembledFrom | internal/node/runtime.go:522-594 | The gate at one step: whatever is assembled after it was assembled before with the same manifest, or a signature has just completed that manifest and the policy passed it by what the disk said. |
| NodeGate.AssembledOnlyIfAdmitted | internal/node/runtime.go:87-133 | In every state of every run, what is being assembled was resumed at the start from its partial directory, with a signature that holds and wanted or from an admitted signer; or passed the policy at an earlier step, by what the disk said then: the signature held, and it was wanted, or signer and, unless work had begun, size passed. |
| NodeGate.ChunksOnlyIfAdmitted | internal/node/runtime.go:746-800 | Every request for chunks that a node ever sent names a publication that was being assembled, and not whole, when the request went out, and whose manifest had passed that gate before. |
| NodeFiling.StartNamed | internal/node/runtime.go:112-138 | What is resumed for an ID was read from the manifest in its directory on the starting disk, and carries that ID if and only if that file, where there is one, names it; other files do not matter. |
| NodeFiling.StartNames | internal/node/runtime.go:112-138 | So what is resumed carries its own ID throughout if and only if every directory that is resumed names itself. |
| NodeFiling.StartFiled | internal/node/runtime.go:112-138 | From a directory whose manifests are filed under their IDs, a node starts with one. |
| NodeFiling.MisfiledStart | internal/node/runtime.go:112-138 | A directory that a node starts from with an acquisition of one ID that assembles another publication. |
| NodeFiling.RunNamed | internal/node/runtime.go:522-681 | Over every run what is assembled for an ID carries that ID, if it does at the start. |
| NodeFiling.RunFiled | internal/publication/store.go:159-369 | Over every run manifests stay in the directories of their IDs, if whatever else writes to the store puts them there. |
| NodeOutcomes.CommitCompletes | internal/publication/store.go:333-362 | A commit that succeeds leaves the object complete with the assembled octets, and nothing of the partial directory. |
| NodeFiling.CommittedIsVerified | internal/node/runtime.go:655-675 | An acquisition that ends as committed leaves a complete object with the length, hash and signature of its manifest, whose ID is that of its content, and its ID in the inventory if the directory could be listed. |
| NodeFiling.InventoryWasComplete | internal/node/runtime.go:818-825 | In every state of a run the inventory is exactly what was complete on disk at some moment of that run. |
| NodeFiling.InventoryIDs | internal/node/runtime.go:818-825 | And on filed disks every ID in it is that of a content which was on disk then. |
| Transfer.ServesOnlyComplete | internal/node/runtime.go:443-503 | A node answers requests for manifests, signatures and chunks about complete objects only, whose IDs on a filed disk are those of their contents, and answering changes nothing else. |
| NodeOutcomes.EndsForReason | internal/node/runtime.go:522-594 | An acquisition ends only for a reason that holds: the signature for it did not hold; the policy did not pass it by what the disk said, and its metadata is saved; or its object is complete under the ID of its content. |
| NodeVerdicts.JudgedExactly | internal/node/runtime.go:522-594 | What a signature leads to, both ways: one that does not hold ends the acquisition as rejected and forgets it; one that holds over a manifest which the policy does not pass ends it as deferred, its source remembered, once the metadata is saved; otherwise the partial directory is opened and what it holds gone on with, or committed at once if that is the whole content, exactly if nothing hinders it. |
| NodeVerdicts.LastChunk | internal/node/runtime.go:639-681 | The last chunk of an assembly with the right hash ends the acquisition as committed exactly if nothing hinders the commit. |
| NodeVerdicts.ChunkTaken | internal/node/runtime.go:639-681 | An awaited chunk that is not the last one missing is stored, in memory and on disk, and no longer waited for, and behind the last one asked for the acquisition goes on in a tenth of a second with its failures forgotten; if it cannot be stored the request stays as it is. |
| NodeOutcomes.InspectedJudged | internal/node/runtime.go:596-623 | A source counts as inspected for an ID only after a signature from it completed a manifest of that ID. |
| NodeVerdicts.MarkForgetsOldest | internal/node/runtime.go:599-613 | Marking a source as inspected forgets nothing, unless a new ID finds no room: then exactly the oldest. |
| NodeDurability.StepDurable | internal/node/runtime.go:639-681 | Every step keeps each assembly on disk, chunk by chunk; or, once it is whole, its object complete or its hash wrong. |
| Restarts.RestartExact | internal/node/runtime.go:655-662 | Starting over an assembly that is on disk: what memory holds then is on disk if and only if the restart succeeded, or failed before it removed a file of the assembly. |
| NodeDurability.WholeRests | internal/node/runtime.go:780-783 | An assembly that is whole in memory rests in every step: a commit that failed is not tried again before the next start, and its files stay as they are. |
| NodeDurability.NothingForgotten | internal/node/runtime.go:87-133 | Over every run in which nobody else writes to the store, from a start whose names are right, a restart between any two events finds again what was assembled, or its object is complete, if and only if no event so far has lost it: a chunk that made it whole with a wrong hash, and whose restart failed after it had removed a file of it. What was lost is never found again. |
| NodeDurability.LosingStep | internal/node/runtime.go:655-662 | Such a loss, by one step from a valid state whose disk is in step with memory: memory holds the whole assembly, the disk does not. |
| Crashes.StepLeaves | internal/node/runtime.go:522-681 | What an event makes of the disk is the last of the disks that a crash inside it may leave. |
| Crashes.CrashSafe | internal/node/runtime.go:522-681 | Wherever a node stops inside an event, between saving metadata, beginning, storing, publishing, removing and starting over: every assembly that was safe before it is on the disk that is left or has its object complete, unless the event itself makes that assembly whole with a wrong hash. |
| Crashes.CrashForgetsNothing | internal/node/runtime.go:87-133 | So over every run, after a crash anywhere the next start finds again what was assembled before the event under way, or its object is complete, except for what that event made whole with a wrong hash and what was lost before. |
| Resumption.TakesUp | internal/node/runtime.go:112-138 | From every partial directory that names itself a node takes up again exactly what can be loaded, if the policy passes it now; where nothing can be loaded it pursues the publication afresh. |
| Resumption.PursuesWanted | internal/node/runtime.go:139-151 | Every wanted publication is pursued. |
| Resumption.SilentAtFirst | internal/node/runtime.go:87-151 | A node that starts has sent nothing, and advertises first when the delay is over that was drawn for it. |
| Resumption.GoesOn | internal/node/runtime.go:87-151 | A restart between any two events goes on where the node was: with nothing lost and the object not complete, the next start assembles at least what was assembled, if its policy passes it. |
| Coverage.NodesAreHonest | internal/node/runtime.go:258-283 | A node answers every request for a prefix that names its generation, once, with the summary or leaf of its inventory, under the request's number. |
| Coverage.AnswersExact | internal/node/runtime.go:258-283 | A request that names the generation of some inventory is answered exactly if that of the node has the same one: a node whose inventory has changed stays silent. |
| Coverage.AnswersWhole | internal/node/runtime.go:258-283 | Where the prefix covers at most ten IDs the answer is a leaf that names exactly them, and otherwise the summary. |
| Coverage.RootCovers | internal/node/runtime.go:225-256 | After a root summary of an honest peer, everything that it holds is in the inventory, a candidate, or below a prefix to be asked for, whatever was known before. |
| Coverage.SummaryCovers | internal/node/runtime.go:285-301 | What the prefix of an answered request covered is covered by its children. |
| Coverage.EnqueuedSoon | internal/node/runtime.go:350-363 | What is queued asks for one of the named prefixes, and is due within three quarters of a second. |
| Coverage.LeafCovers | internal/node/runtime.go:303-348 | After a leaf, which names everything that the prefix covered, each such ID is in the inventory, or a candidate that may be asked for from the peer or from eight others, or was passed over for a reason. |
| Coverage.ConsiderKnows | internal/node/runtime.go:314-347 | An ID of a leaf is passed over exactly if it is complete already, or known, not wanted, not begun and inspected at this source; otherwise it becomes a candidate that may ask the node which named it, due within half a second if it is new, or room ran out. |
| NodeSources.StepSources | internal/node/runtime.go:424-441 | An acquisition keeps every node that it may ask, in order, as long as it is there. |
| NodeSources.LeafDisturbsNothing | internal/node/runtime.go:303-348 | Hearing of a publication again disturbs no acquisition: a wait is not cut short and an outstanding request stays, only a source may come. |
| CoverageRuns.StepCovers | internal/node/runtime.go:225-422 | After every step all that a tracked peer holds is covered afresh, or what its jobs covered still is, or is known, or was dealt with in that step: its acquisition ended for a reason, or the peer, asked for a prefix of it, named it in a leaf and it was complete, or known and that peer inspected. Failed sends, timeouts, repeated roots, other peers and local commits included. |
| CoverageRuns.RoomSuffices | internal/node/runtime.go:225-441 | With 240 jobs or fewer in the queue and 246 acquisitions or fewer in the table no event drops anything for lack of room. |
| NodeStock.StockGrows | internal/node/runtime.go:655-675 | As long as nobody else writes to the store and no other content is committed over a complete object, what is complete stays complete and the inventory only grows. |
| CoverageRuns.NothingLost | internal/node/runtime.go:225-441 | No discovery is lost over whole runs: while a peer is tracked, each ID that it holds is in the inventory, a candidate that may be asked for from this peer or from eight others, below a prefix to be asked for, or one of the events dealt with it: its acquisition ended because its signature did not hold, the policy did not pass it or it was committed; or that peer itself, asked for a prefix of it, named it in a leaf, and it was complete, or known, not wanted, not begun and inspected at that peer. Digests do not collide, complete objects do not disappear, and there is room or nothing lacked it. |
| CoverageRuns.FirstContact | internal/node/runtime.go:225-256 | With 240 jobs or fewer in the queue an honest root summary always finds room, and leaves its peer tracked with everything it holds covered. |
| CoverageRuns.FinishedWalk | internal/node/runtime.go:225-441 | When no job of the peer is left, every ID it holds is in the inventory, a candidate that may be asked for from this peer or from eight others, or was dealt with in such a way. |
| NodeStock.NothingLostFromStart | internal/node/runtime.go:153-172 | From a start whose names are right, by a node that is left to itself, with an honest peer, without collisions and with room for one more packet, no discovery is lost. |
| Network.RequestReads | internal/node/runtime.go:365-395 | The request for a job says, when it is read, exactly its generation and prefix. |
| Network.StepSent | internal/node/runtime.go:365-395 | The request of the active job is among the packets sent, in every state of every run. |
| Network.NodesAnswerRequests | internal/node/runtime.go:258-283 | A node that hears a request answers it, to the requester and under its number, out of its own inventory. |
| Network.NetworkIsHonest | internal/node/runtime.go:404-410 | As long as no number is used for two different requests to a peer, an answer that matches the outstanding request answers that request, however long answers were under way. |
| Network.NumbersExact | internal/node/runtime.go:404-410 | The exact condition: whatever the network delivers, what a node takes for the answer to its request is that answer, if and only if every request that it sent to the peer under the same number has the same one. |
| Network.ReusedNumber | internal/node/runtime.go:404-410 | A valid state with two requests under one number, in which the late answer to the old one ends the new one, and an ID that only this one covered is lost. |
| Network.EarlyNumbers | internal/node/runtime.go:365-395 | Until the counter has been round once, every request has a number of its own. |
| Network.NothingLostWithNumbers | internal/node/runtime.go:225-422 | No discovery is lost with a peer that only answers requests that were sent to it, while everything may be delayed, lost, repeated or reordered, as long as no number is used for two requests to it. |
| Network.NothingLostAmongNodes | internal/node/runtime.go:225-422 | And that is so, from a state that has asked nobody yet, for the first 65,536 turns of the counter. |
| WalkProgress.StepWork | internal/node/runtime.go:285-422 | At any price of prefixes by which the children that an answer names cost less than their parent, each answer uses up work, and nothing but a root summary of that peer adds any. |
| WalkProgress.DepthIsLight | internal/node/runtime.go:285-301 | There is such a price for every answer, honest or not. |
| WalkProgress.WalkEnds | internal/node/runtime.go:285-422 | Between two root summaries of a peer a run sees no more answers to its jobs than the work there was. |
| WalkProgress.NoWorkNoJobs | internal/node/runtime.go:350-363 | No work is left exactly when the peer has no job. |
| WalkCost.StepDiffers | internal/node/runtime.go:225-301 | With an honest peer every job, in every state, covers an ID that exactly one side holds. |
| WalkCost.ReconciliationCost | internal/node/runtime.go:225-422 | With an honest peer and inventories that stay, a run sees at most 32 answers to its requests for each ID that exactly one side holds and each root summary, beyond what was left before. |
| WalkCost.OneReconciliation | internal/node/runtime.go:225-422 | From one root summary to the next at most 32 answered requests for each such ID. |
| Fairness.SelectionCloser | internal/node/runtime.go:731-744 | While an acquisition is ready, a selection takes it or moves the cursor closer to it. |
| Fairness.StepTurns | internal/node/runtime.go:683-744 | While the order stays the same, the cursor moves exactly at selections, past the place selected. |
| Fairness.RoundRobin | internal/node/runtime.go:731-744 | An acquisition that stays ready while the order stays the same is chosen within as many selections as there are acquisitions. |
| Fairness.TurnsCome | internal/node/runtime.go:731-744 | And within m times as many selections it is chosen m times. |
| Fairness.SourcesTakeTurns | internal/node/runtime.go:746-754 | Retries rotate: until a manifest is staged, each source is asked within as many attempts as there are sources. |
| NodeDuties.ExpiresExactly | internal/node/runtime.go:683-689 | A tick ends a request exactly if its deadline has passed; the acquisition then rests for a wait that grows with its failures. |
| NodeDuties.AnyWaitDrawn | internal/node/runtime.go:836-849 | Every wait between the backoff and half as much again can be drawn. |
| NodeDuties.NobodyWaitsLonger | internal/node/runtime.go:683-689 | So after a tick nobody waits for an answer whose time had run out before it. |
| NodeDuties.JobExpiresExactly | internal/node/runtime.go:690-700 | A reconciliation request is given up exactly if its deadline has passed; its job then waits at the end of the queue, if there is room. |
| NodeDuties.OtherGenerationsDropped | internal/node/runtime.go:285-313 | Every answer ends the request; one that is malformed or speaks of another generation or prefix changes nothing else. |
| NodeDuties.MalformedFails | internal/node/runtime.go:505-530 | A malformed manifest or signature fails the exchange, which waits for another attempt. |
| NodeDuties.Advertises | internal/node/runtime.go:802-816 | A free node whose time has come lists its directory and broadcasts the root summary of what it found, which is the truth to whoever hears it; the next one is due within a fifth of the interval. |
| NodeDuties.AsksInTurns | internal/node/runtime.go:707-744 | A free node asks for something at a tick if anything is due, the first due job or the next acquisition, in turns where both are; and rests otherwise. |
| NodeDuties.RemembersPeers | internal/node/runtime.go:231-252 | Hearing a root makes its peer the one heard last, at its generation; of the others exactly the one heard longest ago is forgotten, where a new peer finds no room. |
| Transfer.ServesEveryBit | internal/node/runtime.go:477-503 | Every chunk that a request names and the object has is served: the grant of four is never used up before the request. |
| Transfer.ReplyIsSlice | internal/node/runtime.go:477-503 | What a complete object answers to one bit is its slice at that index, addressed to the requester under the request's number. |
| Transfer.ManifestTravels | internal/node/runtime.go:443-475 | Manifest and signature, sent apart, put the manifest together again, exactly unless it claims the signed version without a signature. |
| Introductions.ManifestExchange | internal/node/runtime.go:443-520 | A selected acquisition without a manifest asks its source for it; a node that has the object complete answers; and the answer, when it comes before the deadline, stages that manifest with its source. |
| Introductions.SignatureExchange | internal/node/runtime.go:505-540 | With a manifest staged it asks the source of that one for the signature; the node answers, and the answer completes the manifest. |
| Introductions.Introduced | internal/node/runtime.go:522-594 | The signature begins the assembly of the content that the other node has, exactly if the policy passes the manifest and its name is safe. |
| Transfer.UnsignedVersionTwo | internal/node/runtime.go:443-475 | A complete object whose manifest claims the signed version without a signature arrives as version 1. |
| Transfer.ChunkFaithful | internal/node/runtime.go:639-681 | An honest chunk keeps everything received equal to the content, and ends in exactly the content on disk. |
| TransferRuns.SignatureStarts | internal/node/runtime.go:522-594 | With nothing of a publication on disk and its writes done, the signature that completes a manifest makes the acquisition faithful to the content it describes, or completes an empty one, exactly when the policy passes it and it can be stored. |
| TransferRuns.EndToEnd | internal/node/runtime.go:639-681 | Over every run in which the chunks taken are the content's, whoever sent them and in whatever order and number, the assembly stays the content's until the store holds exactly the content, complete. |
| TransferRuns.FromSignature | internal/node/runtime.go:522-681 | From that signature, over every run in which the chunks taken are the content's, to exactly the content, complete. |
| Demultiplexer.ExchangeShrinks | internal/node/runtime.go:639-681 | Over every run within the deadline of a request, whatever else is heard and whichever acquisition the node finds for each reply: once every chunk asked for was heard and stored, all of it has arrived, or the content is complete, as long as no other acquisition was last asked under that number at that source. |
| Demultiplexer.ExchangeExact | internal/node/runtime.go:851-858 | That condition is exact: good answers bring all that was asked for in every run that hears them if and only if no other acquisition carries their number and source. |
| Demultiplexer.StalePair | internal/node/runtime.go:851-858 | A valid state with such a pair, in which a good answer may be taken for the other acquisition and changes nothing. |
| Namesakes.EarlySole | internal/node/runtime.go:746-754 | Until the counter has been round once, the number that an acquisition was last asked under is its own, and the next one is nobody else's. |
| Namesakes.BootedAsks | internal/node/runtime.go:112-151 | A node that starts has asked nobody, so the first round begins there. |
| Rounds.StaleReached | internal/node/runtime.go:746-783 | A run of 65,536 ticks that ends in such a pair, from a valid state in which nobody shares a number: an assembly that is whole and uncommitted takes a number at each turn, while the clock stands still. |
| Exchanges.AsksIffMissing | internal/node/runtime.go:780-783 | A turn with an assembly sends a request if and only if a chunk is missing, so what is whole but uncommitted is not tried again by a turn. |
| Exchanges.AsksOnward | internal/node/runtime.go:780-799 | A turn asks for the lowest missing chunks, as many as the controller grants, of the window where the first missing one from the cursor on lies; the cursor comes to stand behind them. |
| Exchanges.FullExchange | internal/node/runtime.go:746-800 | A selected acquisition asks the source in turn for missing chunks under the next number; that node, if it has the content complete, hears the request and answers it; and in every run in which each answer is heard and stored before the deadline, all that was asked for arrives, or the content is complete, as long as no other acquisition carries that number and source. |
| Exchanges.AskedAnswers | internal/node/runtime.go:477-503 | The node that is asked sends honest answers to all that was asked for, to the requester under the request's number, and nothing else changes there. |
| Deliveries.ContentArrives | internal/node/runtime.go:639-800 | Over every run in which what is heard of the content is honest, after as many whole exchanges, with whichever nodes, as there were chunks missing, the content is complete on disk; or, where something hindered the commit, it is exactly what the assembly joins to. |
| Deliveries.ContentArrivesInTurn | internal/node/runtime.go:731-800 | An acquisition that stays ready as long as it is there, and each of whose turns is answered before its next one, gets all of the content within as many selections as there are chunks missing times acquisitions. |
| Runtimes.Runtime.constructor | internal/node/runtime.go:87-151 | A new node is in the start state and valid, from whatever directory. |
| Runtimes.Runtime.HandleIncoming | internal/node/runtime.go:174-223 | Handling any octets is one step of the model, with some match whenever there is one, and keeps the node valid. |
| Runtimes.Runtime.OnTick | internal/node/runtime.go:683-729 | A tick is one step of the model and keeps the node valid. |
| Runtimes.Runtime.TrackPeer | internal/node/runtime.go:231-252 | The peer moves to the end of the order, the oldest of 64 is evicted with its jobs for a new one, and a new generation drops the peer's jobs. |
| Runtimes.Runtime.HandleRootSummary | internal/node/runtime.go:225-256 | A root summary renews its peer's place, makes room for a new peer, drops the jobs of an old generation, and queues every differing child that is not queued: the new state is exactly that. |
| Runtimes.Runtime.ServeSummary | internal/node/runtime.go:258-283 | A request for the current generation is answered by a leaf of at most ten IDs or else a summary, any other by nothing; only what was sent changes. |
| Runtimes.Runtime.AcceptSummary | internal/node/runtime.go:285-301 | An answer to the active job ends it; if it is a summary of what was asked, the differing children are queued first; anything else changes nothing. |
| Runtimes.Runtime.AcceptLeaf | internal/node/runtime.go:303-348 | An answer to the active job ends it, and each ID of the leaf that is lacking is, one after another, skipped or made a candidate with its source and its first attempt. |
| Runtimes.Runtime.QueueReconciliation | internal/node/runtime.go:350-364 | A job is queued unless it is there already or the queue is full. |
| Runtimes.Runtime.InitiateReconcile | internal/node/runtime.go:365-395 | The first job that is due goes out under a new number, or waits again. |
| Runtimes.Runtime.DropReconciliation | internal/node/runtime.go:411-422 | Exactly the jobs of that peer go. |
| Runtimes.Runtime.AddCandidate | internal/node/runtime.go:424-441 | A candidate is found or made, with its source, unless the table is full. |
| Runtimes.Runtime.ServeChunks | internal/node/runtime.go:477-503 | The loop over eight bits with its remaining grant of four sends one chunk for each bit whose chunk can be read, in order, about complete objects only. |
| Runtimes.Runtime.AcceptManifest | internal/node/runtime.go:505-520 | A manifest that an acquisition waits for is staged with its source, a malformed one fails the exchange, any other changes nothing. |
| Runtimes.Runtime.AcceptSignature | internal/node/runtime.go:522-594 | A signature that does not hold ends the acquisition; otherwise the metadata is saved, the policy decides, the partial directory is opened, and what is whole already is committed; every failure on the way fails the exchange. |
| Runtimes.Runtime.MarkSourceInspected | internal/node/runtime.go:599-613 | The oldest ID makes room; at most eight sources an ID. |
| Runtimes.Runtime.ClearInspected | internal/node/runtime.go:615-623 | The ID goes from both tables. |
| Runtimes.Runtime.AcceptChunk | internal/node/runtime.go:639-681 | A wanted chunk is stored and no longer wanted; the last one wanted ends the exchange, the last one missing commits, and a wrong hash starts the assembly over. |
| Runtimes.Runtime.NextWork | internal/node/runtime.go:731-744 | The first ready acquisition cyclically from the cursor, and the cursor past it. |
| Runtimes.Runtime.Initiate | internal/node/runtime.go:746-800 | Under a new number the source in turn is asked for the manifest, the source of a staged manifest for its signature, or a source for the granted part of the next batch, whose bitmap is built index by index; then the acquisition waits, or fails if it could not send. |
| Runtimes.Runtime.Advertise | internal/node/runtime.go:802-816 | The inventory is listed anew and its root summary broadcast, unless listing fails; the next advertisement is due after a jittered interval. |
| Runtimes.Runtime.Active | internal/node/runtime.go:851-858 | Some acquisition that the reply matches, or none if there is none. |
| Runtimes.Runtime.RemoveOrder | internal/node/runtime.go:862-872 | The ID goes from the order and the cursor stays in range. |

## Left out

- Runtimes.Runtime.AcceptChunk: acquisitions and their assemblies are values in a table, not shared objects, and the methods of the runtime use the store's operations as functions on a disk; `StoreOperations.Store` and `Assemblies.Assembly` are proved equal to the same functions, but aliasing between the runtime and an assembly is not modelled.
- Runtimes.Runtime.constructor: the configuration errors of NewRuntime are its precondition, and the listings of partial and wanted publications are arguments.
- Network.NothingLostAmongNodes: speaks of a peer whose inventory does not change and in whose name nobody else sends, and of runs within the first round of the 16-bit transaction counter; beyond it the condition is that of `Network.NothingLostWithNumbers`.
- Exchanges.FullExchange: requires that no other acquisition carries the next number at that source, which holds throughout the first round of the counter (`Namesakes.EarlySole`).
- Crashes.CrashForgetsNothing: promises nothing for the assembly that the event under way makes whole with a wrong hash; the code removes that one on purpose.
- TransferRuns.EndToEnd: starts from an assembly that agrees with the content, as one begun afresh does (`TransferRuns.SignatureStarts`); chunk files of unknown origin that were on disk before are caught by the hash when the assembly is committed (`NodeOutcomes.CommitCompletes`), not earlier.
- ModemClient.Client.ReadAvailable: a failed read brings no octets; the code drops those that a port may return together with an error.
- NodeSteps.ExpireAcquisitions: one random draw serves all requests that expire at once; in reachable states there is at most one.
- SHA-256, CRC-32 and Ed25519 themselves, and key generation, trust files and signing: parameters.
- The JSON form of manifests is taken to be invertible; Go's encoder replaces invalid UTF-8 in file names.
- The traffic controller (`internal/node/controller.go`): pressure is floating point; its answers, a batch of one to four and whether the node may initiate, are inputs.
- Logging, metrics, sleeping between replies, goroutines and real clocks: no effect on the state.
- ModemRadio (`internal/node/radio.go`): thin calls of the serial client; a send succeeds or fails as an input.
- OLED, non-volatile settings and boot diagnostics of the firmware, and the wording of texts and status lines; radio floats are kept as their bits.
- Directory creation, permissions, temporary files and syncing: a write is atomic, or fails before or after the rename.
- Candidate (`internal/node/scheduler.go:40-54`): the runtime does not use it; its rotation of sources is proved where the runtime has it (`Fairness.SourcesTakeTurns`).
- Command line, configuration files, radio profiles, known-metadata listings, and the older inventory pages and one-hop tools: thin beside the core.
