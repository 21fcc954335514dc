# Verified models of the Conflux node's codecs, peer management and accounts

This project models five groups of code of the Conflux Rust node and proves properties of
the models. Each group is a set of pure definitions with lemmas about every input, every
step and every run; where the node changes objects in place, a class with the same fields
and methods is proved to do exactly what the definitions say.

- **Base32 addresses** (`BitStrings`, `ConvertBits`, `Polymod`, `Charset`, `AddressText`,
  `AddressTypes`, `AddressCodec`). Regrouping bits in a 16-bit accumulator is equal to cutting
  up one bit string; the checksum step is linear and injective on 40-bit states, from which
  follow that check symbols always verify, are the only ones that do, and that any change
  within eight consecutive symbols is noticed; parsing undoes printing, and it is said exactly
  which texts are printed back.
- **Framed, throttled connections** (`Framing`, `Throttling`, `Connection`, `Traffic`). Whatever
  the partial writes and reads, packets arrive whole, unchanged and in order. With one throttling
  service for any number of connections, its byte counters are always the original sizes of all
  packets queued or being written.
- **Peers and sessions** (`NodeTable`, `NodeIpLimit`, `NodeDatabase`, `NodeAgreement`, `NodeBans`,
  `NodeLoading`, `SessionLimits`, `SessionManager`, `SessionTags`, `NeighborChunks`, `Discovery`). The
  indexes of node tables, sessions and session tags agree with what they index in every reachable
  state. For the address index it is said exactly when opening a database leaves it in agreement with
  the node tables, and which two kinds of operation break the agreement later. Ids are in one table
  only, from when and until when a ban lasts is exact, and the discovery protocol keeps its bounds.
- **Keys and phrases** (`KeyDerivation`, `PhrasesIterator`). Public derivation is the public key
  of private derivation along every path; the phrase odometer counts through all combinations.
- **Accounts** (`AccountUnlock`, `RollingTokens`). What each kind of unlock permits over every
  run, and why a rolling token works exactly once.

`Wrappers`, `Machine` and `Sequences` hold what several groups use.

`dafny verify dfyconfig.toml` checks the whole project.

Randomness, clocks, sockets, hashes, the answers of stores and the choices of hash maps are
parameters of the operations, so each theorem is for all of them. A panic or a failed assertion
of the node is an outcome of the model, and lemmas say when it occurs.

Where code and comments differ, the code is followed. `chain_code` announces 10,000 rounds and
makes 100,000. `promote` is commented as always able to add the node; `promote_with_untrusted` removes
the evictee first, so when a node has to make room for itself its insertion finds nothing to promote
and the node is gone from the tables (`InsertTrustedMoves`, `LostToItself`).

Nine properties one might expect are false of the code; for each there is an exact condition and
an input or a run that fails.

- Padding and unpadding are inverse only while the padding is shorter than an input symbol
  (`PaddedThenUnpadded`); one bit padded to a byte comes back as eight (`OneBitPadded`), and for 8
  to 5 bits the condition always holds.
- An accepted address prints back only if its prefix is `cfx`, `cfxtest`, or `net` with a number
  without plus sign or leading zero (`EncodeDecode`); under `net007` or `net+7` every address of
  network 7 is read and printed differently (`PrintedDifferently`, `ReadsSeven`).
- The parser can panic. It does so exactly on texts whose parts before the payload are in order and
  whose payload is one to eight symbols with a correct checksum (`PanicsExactly`), such as a prefix
  followed by its own check symbols (`BarePrefixPanics`).
- A subnet can hold more nodes than its quota. A demotion in a subnet without an untrusted
  bucket takes the id out of every bucket, so that it is no longer counted (`DemoteAllBucketed`,
  `QuotaExceeded`); without such a demotion the quota holds (`RunWithinQuota`).
- The address index and the node tables can disagree, after exactly such a demotion or the promotion
  of a node that has to make room for itself (`StepAgrees`, `IndexedWithoutNode`). In that state
  `set_tag` can panic (`TaggingFails`); while they agree it never does (`TaggingNeverStops`).
- Opening a database leaves index and tables in agreement exactly if no trusted node has to evict an
  untrusted one (`OpenedExactly`): `init` takes the evictee out of the table it is loading, where it
  is not, and so leaves it in the other one without an index entry (`LeftOutsideTheIndex`).
- A blacklisted node need not stay banned for seven days from then on. It does exactly if the contact
  on its entry is not older (`BannedExactly`), but `set_blacklisted` keeps the contact of a node that
  is demoted or blacklisted already, and the ban counts from that (`BannedSince`); after a demotion
  long ago it can be over at once (`BanOverAtOnce`).
- The same-token panic of `update_ingress_node_id` is reached exactly by a HELLO of an ingress
  session that is already registered for its id (`StepKeeps`, `SecondHelloPanics`); first HELLOs
  never reach it.
- The token returned by `sign_with_token` is accepted next exactly for accounts of the root vault
  (`NextIsAccepted`, `NamedVaultTokenRefused`), because copies are stored under the root and looked up
  under the account's vault.

## Model

| member | source | states |
|---|---|---|
| ConvertBits.ConvertBits | crates/cfx_addr/src/utils.rs:50-92 | the Rust loop returns exactly the regrouping of one bit string: the packed groups with zero padding, or the unpadded groups, or the rejection of long or non-zero padding with its three numbers |
| ConvertBits.ExtractGroups | crates/cfx_addr/src/utils.rs:65-71 | each pass moves the highest group out and clears it, so that emitted groups and accumulator still spell the same bit string |
| ConvertBits.FinishCleared | crates/cfx_addr/src/utils.rs:73-91 | the end of the loop completes the regrouping, with every padding case |
| ConvertBits.ShiftInExact | crates/cfx_addr/src/utils.rs:61-63 | the 16-bit accumulator loses no bit when a symbol is shifted in |
| ConvertBits.HighestExact | crates/cfx_addr/src/utils.rs:66-67 | the truncation to a byte of the highest group changes nothing |
| ConvertBits.ClearExact | crates/cfx_addr/src/utils.rs:68-69 | and-ing with the complemented mask keeps exactly the bits below the emitted group |
| ConvertBits.LastExact | crates/cfx_addr/src/utils.rs:73-77 | the last padded symbol fits a byte and loses no bit |
| ConvertBits.Convertbits | integration_tests/conflux/address_utils.py:82-101 | the Python loop with its masked accumulator rejects values out of range and otherwise agrees with the same regrouping, for all widths |
| ConvertBits.AppendGroups | integration_tests/conflux/address_utils.py:93-95 | the inner loop emits whole groups and leaves fewer bits than one group |
| ConvertBits.FinishMasked | integration_tests/conflux/address_utils.py:96-101 | the end of the Python function completes the same regrouping |
| ConvertBits.CompareImplementations | integration_tests/conflux/address_utils.py:82-101 | for all widths up to eight, both padding modes and all inputs in range the two implementations return the same symbols or both reject |
| ConvertBits.PaddedThenUnpadded | crates/cfx_addr/src/utils.rs:50-92 | padded regrouping followed by unpadded is the identity if and only if fewer zero bits were appended than an input symbol has |
| ConvertBits.OneBitPadded | crates/cfx_addr/src/utils.rs:50-92 | a concrete input for which they are not inverse: one bit padded to a byte |
| ConvertBits.UnpaddedThenPadded | crates/cfx_addr/src/utils.rs:50-92 | whatever the unpadded direction accepts, the padded direction re-emits exactly |
| Polymod.Polymod | crates/cfx_addr/src/utils.rs:13-35 | the loop computes the fold of the mixing step over the symbols, starting from one and ending with an exclusive or of one |
| Polymod.Round | crates/cfx_addr/src/utils.rs:16-32 | the five conditional exclusive ors are one mixing step |
| Polymod.MixLinear | crates/cfx_addr/src/utils.rs:16-32 | a step is linear over exclusive or in state and symbol |
| Polymod.MixKernel | crates/cfx_addr/src/utils.rs:16-32 | a step with symbol zero takes only the zero state to zero |
| Polymod.MixInjective | crates/cfx_addr/src/utils.rs:16-32 | a step is injective on 40-bit states |
| Polymod.BurstDetected | crates/cfx_addr/src/utils.rs:13-35 | strings of any length that differ only within eight consecutive symbols have different checksums |
| Polymod.CheckSymbolsVerify | crates/cfx_addr/src/lib.rs:61-71 | appending the eight computed symbols always drives the checksum to zero |
| Polymod.CheckSymbolsUnique | crates/cfx_addr/src/lib.rs:61-71 | they are the only eight symbols that do |
| Polymod.RunDigits | crates/cfx_addr/src/lib.rs:68-71 | shifting in the symbols of a state one by one rebuilds the state |
| Polymod.ChecksumSymbols | crates/cfx_addr/src/lib.rs:67-71 | the loop over shifted checksums yields the eight symbols of the checksum, highest first |
| Charset.BuildCharIndex | crates/cfx_addr/src/consts.rs:71-85 | the table filled in place gives for each ASCII character its symbol or nothing |
| Charset.BothCases | crates/cfx_addr/src/consts.rs:66-85 | exactly one character and its capital stand for each symbol |
| AddressTypes.PrefixRoundTrip | crates/cfx_addr/src/types.rs:59-104 | reading a printed network prefix gives the network back |
| AddressTypes.ReadNetworksAreEncodable | crates/cfx_addr/src/types.rs:59-104 | every network that can be read can be printed |
| AddressTypes.CanonicalExactly | crates/cfx_addr/src/types.rs:59-104 | a prefix that can be read is the one printed for its network if and only if it is one of the two names, or "net" and a number without plus sign or leading zero |
| AddressTypes.TypeNameRoundTrip | crates/cfx_addr/src/types.rs:134-174 | reading a printed address type gives the type back, and the name has no separator in it |
| AddressText.ParseDecimal | crates/cfx_addr/src/types.rs:73-104 | a printed 64-bit number is read back as itself |
| AddressCodec.DecodeEncode | crates/cfx_addr/src/lib.rs:26-221 | for every byte string of an accepted length, every printable network and both formats, printing succeeds and parsing gives back exactly the bytes, the network and the hex address |
| AddressCodec.EncodeDecode | crates/cfx_addr/src/lib.rs:26-221 | an accepted text is printed back as itself up to case, plainly if and only if it has no options and its prefix is canonical, and in QR form if and only if its one option is the type of the address and its prefix is canonical |
| AddressCodec.PrintedDifferently | crates/cfx_addr/src/lib.rs:26-221 | every twenty-byte address under a readable prefix of small letters, digits and signs that is not canonical is accepted and then printed as another text |
| AddressCodec.ReadsSeven | crates/cfx_addr/src/types.rs:73-104 | "net007" and "net+7" are such prefixes, both read as network 7 |
| AddressCodec.PanicsExactly | crates/cfx_addr/src/lib.rs:95-170 | parsing panics if and only if the text is in one case, has a readable prefix and readable options, and its payload is one to eight symbols with a correct checksum |
| AddressCodec.EightSymbolsPanic | crates/cfx_addr/src/lib.rs:154-170 | of the payloads of eight symbols exactly the check symbols of the bare prefix make the parser panic |
| AddressCodec.BarePrefixPanics | crates/cfx_addr/src/lib.rs:154-170 | a text for every printable network on which the parser panics: the prefix followed by its own check symbols |
| AddressCodec.CfxAddrDecode | crates/cfx_addr/src/lib.rs:95-221 | the parser, with its loop over options, computes the decoding function on every text |
| AddressCodec.DecodeBodyText | crates/cfx_addr/src/lib.rs:130-221 | the payload part of the parser computes the decoding function, through the proved loops for checksum and bits |
| AddressCodec.CfxAddrEncode | crates/cfx_addr/src/lib.rs:26-93 | the printer, through the proved loops for bits, checksum and check symbols, computes the encoding function on all bytes |
| Framing.Assemble | crates/network/src/connection.rs:535-557 | the in-place edit yields the frame of the packet, or fails exactly for an oversized one |
| Framing.TakePacket | crates/network/src/connection.rs:559-589 | splits off a whole packet with its displaced bytes moved back, or changes nothing |
| Framing.LoadFramed | crates/network/src/connection.rs:535-589 | loading undoes framing for every packet within the limit, whatever follows it |
| Framing.LoadPartial | crates/network/src/connection.rs:559-589 | nothing is loaded from any proper part of a frame |
| Framing.LoadFromStream | crates/network/src/connection.rs:559-589 | from any part of a stream only the next packet can be loaded, and the rest of the part is left |
| Framing.LoadAllOfStream | crates/network/src/connection.rs:559-589 | repeated loading yields the packets of the stream in order, and all of them once all bytes are there |
| Framing.DefaultIsWellFormed | crates/network/src/connection.rs:511-531 | the default length prefix can express every packet it admits |
| Throttling.StepBalanced | crates/network/src/throttling.rs:86-175 | each creation or drop keeps total equal to high plus low, equal to the live packets, within capacity, and never panics |
| Throttling.RunBalanced | crates/network/src/throttling.rs:86-175 | the same over every interleaving of creations, drops and initialisations of any packets |
| Throttling.SumWithout | crates/network/src/connection.rs:152-166 | dropping any live packet reduces the sums by exactly its recorded price |
| Throttling.Service.OnEnqueue | crates/network/src/throttling.rs:115-145 | admits exactly what fits, charges it to the right counter, and keeps counters that are the sum of the live packets so |
| Throttling.Service.OnDequeue | crates/network/src/throttling.rs:148-175 | for a live packet the refund neither underflows nor reaches the zeroing branch and leaves the counters at the sum of the others; for any other size it does what the definition says, zeroing and underflow included |
| Throttling.Service.Initialize | crates/network/src/throttling.rs:86-113 | succeeds exactly if the limits are ordered, fit the word and cover what is queued; otherwise nothing is changed |
| Traffic.RunCounts | crates/network/src/connection.rs:107-375 | for one service and any number of connections, over every run of openings, sends, partial or failed writes, closings and initialisations, the counters are exactly the bytes of all packets queued or being written as they were sent, by priority and in total, within capacity; without initialisations nothing panics |
| Traffic.StepKeeps | crates/network/src/connection.rs:107-375 | each event keeps this, and only an initialisation can fail, by its own assertions |
| Traffic.WriteHolds | crates/network/src/connection.rs:269-319 | a write refunds exactly the bytes that are no longer held, although the frame written is longer than the packet charged |
| Traffic.PopHolds | crates/network/src/connection.rs:269-288 | a packet taken from its queue can be framed, and is held at the same size before and after |
| Traffic.CloseKeeps | crates/network/src/connection.rs:152-166 | closing a connection with any packets waiting or half written refunds all of them and keeps the counters exact |
| Traffic.RefundExact | crates/network/src/throttling.rs:148-175 | a sequence of refunds that the counters cover never underflows and lowers each counter by exactly its part |
| Traffic.RecordedIsHeld | crates/network/src/connection.rs:107-137 | the prices recorded in the packets of a connection add up to the bytes it holds |
| Connection.StepKeeps | crates/network/src/connection.rs:195-375 | each send, write and read keeps the invariant: queues are first in first out and conserve packets, bytes written are the frames of popped packets up to the position reached, bytes read are the delivered packets and a rest |
| Connection.RunKeeps | crates/network/src/connection.rs:195-375 | the invariant holds after every sequence of sends, partial writes, write errors and reads |
| Connection.RunDelivers | crates/network/src/connection.rs:195-375 | in every run the delivered packets are a prefix of the popped ones, the bytes a prefix of their frames, no packet fails to assemble, and each priority is popped in order |
| Connection.QuietRunDeliversAll | crates/network/src/connection.rs:195-375 | when nothing waits and all is read, every admitted packet has been delivered unchanged and refunded |
| Connection.EmittedIsStream | crates/network/src/connection.rs:269-319 | the bytes written are always a prefix of the concatenated frames in pop order |
| Connection.GenericConnection.Send | crates/network/src/connection.rs:338-375 | queues a packet in its priority exactly if it fits a frame and the throttling service admits it, charges the service then and only then, and returns the queue length, the oversize error or the throttling error |
| Connection.GenericConnection.PopFromQueue | crates/util/priority-send-queue/src/lib.rs:1-79 | takes the first packet of the most urgent non-empty queue |
| Connection.GenericConnection.Writable | crates/network/src/connection.rs:269-336 | one write resumes at the position reached, refunds exactly on completion or failed assembly, and drops interest when idle |
| Connection.GenericConnection.Readable | crates/network/src/connection.rs:195-241 | appends everything the socket has and takes out at most one packet |
| NodeTable.AddedValid | crates/network/src/node_table.rs:605-622 | adding keeps index and vectors mutually inverse and adds one entry to the map of nodes |
| NodeTable.RemovedValid | crates/network/src/node_table.rs:573-603 | swap-removal keeps index and vectors mutually inverse and removes exactly one entry from the map of nodes |
| NodeTable.TailStaysIndexed | crates/network/src/node_table.rs:590-602 | the index always knows the node that is moved, so the panic is unreachable |
| NodeTable.RewrittenValid | crates/network/src/node_table.rs:508-567 | a node rewritten at its own level keeps the table valid |
| NodeTable.NodeTable.RemoveFromReputationLevel | crates/network/src/node_table.rs:573-603 | the in-place removal refines removal from a plain map |
| NodeTable.NodeTable.AddToReputationLevel | crates/network/src/node_table.rs:605-622 | refines insertion into a plain map for a new id at the level of its contact, and appends to the level in any case |
| NodeTable.NodeTable.UpdateLastContact | crates/network/src/node_table.rs:508-535 | refines the update of contact and endpoint on a plain map, moving the node to the level of its contact |
| NodeTable.NodeTable.AddNode | crates/network/src/node_table.rs:538-567 | refines replacement on a plain map, with the old contact preserved if asked |
| NodeTable.NodeTable.RemoveWithId | crates/network/src/node_table.rs:735-745 | refines removal from a plain map and returns the node |
| NodeTable.NodeTable.NoteUnsuccessContact | crates/network/src/node_table.rs:747-783 | refines the note on a plain map; a demoted node stays demoted |
| NodeTable.NodeTable.NoteSuccess | crates/network/src/node_table.rs:785-829 | refines the note on a plain map; a demoted node stays demoted |
| NodeTable.NodeTable.SetTag | crates/network/src/node_database.rs:523-535 | changing the tags of a node where it is refines the change on a plain map |
| NodeTable.NodeTable.LoadNodes | crates/network/src/node_table.rs:420-453 | of entries with one id the first is kept |
| NodeTable.NodeTable.SampleNodes | crates/network/src/node_table.rs:455-482 | sampled ids are distinct, known and never of demoted nodes |
| NodeIpLimit.RemoveConsistent | crates/network/src/ip/node_limit.rs:85-127 | removal keeps the two address indexes mutually inverse and every bucketed id indexed and in one bucket |
| NodeIpLimit.InsertConsistent | crates/network/src/ip/node_limit.rs:210-277 | so does insertion, with or without an evictee, and it adds no other id |
| NodeIpLimit.DemoteConsistent | crates/network/src/ip/node_limit.rs:244-255 | so does demotion, which keeps the index as it is |
| NodeIpLimit.DemoteAllBucketed | crates/network/src/ip/node_limit.rs:244-255 | demotion keeps every indexed id in a bucket if and only if it is not the demotion of an id in the trusted bucket of a subnet without an untrusted bucket |
| NodeIpLimit.InsertAllBucketed | crates/network/src/ip/node_limit.rs:210-277 | every insertion keeps every indexed id in a bucket |
| NodeIpLimit.RemoveAllBucketed | crates/network/src/ip/node_limit.rs:85-127 | every removal does |
| NodeIpLimit.InsertWithin | crates/network/src/ip/node_limit.rs:210-294 | no insertion takes the ids in the two buckets of a subnet above its quota |
| NodeIpLimit.RemoveWithin | crates/network/src/ip/node_limit.rs:85-127 | no removal does, and no bucket grows by it |
| NodeIpLimit.DemoteWithin | crates/network/src/ip/node_limit.rs:244-255 | no demotion does |
| NodeIpLimit.HeldWithinQuota | crates/network/src/ip/node_limit.rs:279-294 | while every indexed id is in a bucket, the nodes indexed under addresses of a subnet are no more than its quota |
| NodeIpLimit.EvicteeIsIndexed | crates/network/src/ip/node_limit.rs:164-206 | an evictee is always an indexed id |
| NodeDatabase.StepKeeps | crates/network/src/node_database.rs:133-612 | every operation keeps each id in at most one of the three tables and the address index consistent, bucketed ids within quota and no blacklisted id indexed; an operation fails if and only if it notes a trusted node as demoted or tags a trusted node that is not indexed |
| NodeDatabase.RunKeeps | crates/network/src/node_database.rs:133-612 | the same over every run |
| NodeDatabase.RunStopsAtTrusted | crates/network/src/node_database.rs:298-566 | a run stops only where a node that is trusted at that moment is noted as demoted, or is tagged while not indexed |
| NodeDatabase.DemoteThenNote | crates/network/src/service.rs:1272-1277 | the demotion followed by the note, as the service calls them, never fails |
| NodeDatabase.StepReleases | crates/network/src/node_database.rs:453-612 | an entry leaves the blacklist exactly by removal of its id or by evaluation after it expired, and every other operation leaves the entry unchanged |
| NodeDatabase.ReleasedWithin | crates/network/src/node_database.rs:453-612 | over a run an id comes off the blacklist only by such an operation, with its first entry until then |
| NodeDatabase.BannedForLifetime | crates/network/src/node_database.rs:570-612 | until seven days after its recorded contact a blacklisted id is in no other table and keeps its entry, however often it is inserted, promoted or blacklisted again |
| NodeBans.BannedExactly | crates/network/src/node_database.rs:570-612 | a node blacklisted now stays banned in every run without its removal and with evaluations up to seven days from now, if and only if the contact on its entry is not before now |
| NodeBans.CountsFromNowExactly | crates/network/src/node_database.rs:570-575 | that contact is not before now exactly if the node is known and was not demoted, or was demoted or blacklisted already with a contact not before now |
| NodeBans.BannedSince | crates/network/src/node_database.rs:570-612 | the ban counts from the demotion for a demoted node, from the earlier contact for a blacklisted one, and from now otherwise; after every run within seven days of that an evaluation finds the node banned exactly up to their end |
| NodeBans.BlacklistedTwice | crates/network/src/node_database.rs:570-582 | blacklisting a node that is blacklisted already changes nothing, so it does not prolong the ban |
| NodeBans.BanOverAtOnce | crates/network/src/node_database.rs:570-612 | a run of five operations in which a node demoted long ago is blacklisted and becomes trusted at the same moment |
| NodeDatabase.StepFrame | crates/network/src/node_database.rs:133-612 | no operation changes anything about a node other than its subject and the evictee |
| NodeDatabase.DemoteMoves | crates/network/src/node_database.rs:438-450 | a trusted node becomes untrusted as it is; any other stays where it is |
| NodeDatabase.PromoteMoves | crates/network/src/node_database.rs:406-435 | exactly the untrusted nodes connected for longer than due become trusted, with the connection as last contact |
| NodeDatabase.BlacklistMoves | crates/network/src/node_database.rs:570-582 | a known node moves to the blacklist with the failure noted, but a demoted one keeps its earlier contact |
| NodeDatabase.InsertTokenMoves | crates/network/src/node_database.rs:133-164 | a banned node changes nothing; an accepted one is placed, with its token, in the table its trust names |
| NodeDatabase.InsertTrustedMoves | crates/network/src/node_database.rs:247-276 | a node promoted by insertion keeps its contacts and token at the new endpoint, or is in neither table, or nothing changes |
| NodeDatabase.InsertPromotionMoves | crates/network/src/node_database.rs:189-220 | a node that is seen becomes or stays trusted at its new endpoint, keeping token and connection unless it was evicted itself; an untrusted one stays so only if nothing changes |
| NodeDatabase.DemotedStaysUntrusted | crates/network/src/node_database.rs:189-217 | being seen does not promote a demoted node |
| NodeDatabase.DroppedKeeps | crates/network/src/node_database.rs:453-466 | removal takes the id from the one table it is in and from the address index |
| NodeDatabase.NodeDatabase.Remove | crates/network/src/node_database.rs:453-466 | the in-place removal does what the definition says on the three tables and the index |
| NodeDatabase.NodeDatabase.EvaluateBlacklisted | crates/network/src/node_database.rs:587-612 | likewise the evaluation of a blacklist entry |
| NodeDatabase.NodeDatabase.InsertIpLimit | crates/network/src/node_database.rs:166-184 | likewise making room and inserting the address |
| NodeDatabase.NodeDatabase.PromoteWithUntrusted | crates/network/src/node_database.rs:222-243 | likewise the taking of an untrusted node for promotion |
| NodeDatabase.NodeDatabase.InsertWithToken | crates/network/src/node_database.rs:133-164 | likewise insertion with a token |
| NodeDatabase.NodeDatabase.InsertWithConditionalPromotion | crates/network/src/node_database.rs:189-220 | likewise insertion with promotion |
| NodeDatabase.NodeDatabase.InsertTrusted | crates/network/src/node_database.rs:247-276 | likewise insertion as trusted |
| NodeDatabase.NodeDatabase.NoteFailure | crates/network/src/node_database.rs:279-295 | likewise the note of a failure |
| NodeDatabase.NodeDatabase.NoteDemoted | crates/network/src/node_database.rs:298-305 | the assertion fails exactly for a trusted node, without a change; otherwise the note is as defined |
| NodeDatabase.NodeDatabase.NoteSuccess | crates/network/src/node_database.rs:308-317 | likewise the note of a success |
| NodeDatabase.NodeDatabase.Promote | crates/network/src/node_database.rs:406-435 | the loop promotes the ids one after the other, whatever the buckets select in the state each finds |
| NodeDatabase.NodeDatabase.Demote | crates/network/src/node_database.rs:438-450 | likewise demotion |
| NodeDatabase.NodeDatabase.SetBlacklisted | crates/network/src/node_database.rs:570-582 | likewise blacklisting |
| NodeDatabase.NodeDatabase.SetTag | crates/network/src/node_database.rs:523-566 | the tags of a known node change where it is; fails exactly for a trusted node that is not in the enabled index |
| NodeDatabase.NodeDatabase.Init | crates/network/src/node_database.rs:468-521 | the loop files the nodes of one table one after the other as defined, and reports a panic exactly where one of its rounds has one |
| NodeLoading.OpenedExactly | crates/network/src/node_database.rs:107-129 | filing the untrusted and then the trusted nodes, in any order and with any choice of evictees, never panics and leaves every subnet within its quota; index and tables then agree if and only if no trusted node evicted an untrusted one |
| NodeLoading.FirstLoop | crates/network/src/node_database.rs:468-521 | the first loop leaves exactly the remaining untrusted nodes filed |
| NodeLoading.LoadKeeps | crates/network/src/node_database.rs:468-521 | in each loop every node is found in its table, no id is filed twice and every insertion succeeds, so that neither expectation, panic nor assertion fails |
| NodeLoading.LoadAgrees | crates/network/src/node_database.rs:468-521 | a loop that evicts nobody from the other table keeps index and tables in agreement for all nodes done so far |
| NodeLoading.StrayAtTheEnd | crates/network/src/node_database.rs:505-514 | once a trusted node has evicted an untrusted one, an untrusted node is left without an index entry to the end |
| NodeLoading.LeftOutsideTheIndex | crates/network/src/node_database.rs:505-514 | two nodes on disk with one address, of which the untrusted one ends in its table and not in the index |
| NodeAgreement.StepAgrees | crates/network/src/node_database.rs:133-612 | where the address index holds exactly the ids of the trusted and untrusted tables, at their addresses and each in the bucket of its table, it still does after an operation if and only if that is neither a lossy demotion nor the promotion of a node that has to make room for itself |
| NodeAgreement.RunAgrees | crates/network/src/node_database.rs:133-612 | from a database that agrees, the agreement holds after every run without such operations, and no tagging fails in it |
| NodeAgreement.AgreesMeans | crates/network/src/ip/node_limit.rs:45-60 | agreement makes the indexed ids those of the two tables and puts each in a bucket |
| NodeAgreement.TaggingNeverStops | crates/network/src/node_database.rs:545-548 | while they agree the index always has the node that is tagged |
| NodeAgreement.TaggingFails | crates/network/src/node_database.rs:545-548 | a run of five operations from an empty database after which a trusted node is not indexed and tagging it panics |
| NodeAgreement.IndexedWithoutNode | crates/network/src/node_database.rs:222-243 | a run of two operations after which an id is indexed and in no table |
| NodeAgreement.LostToItself | crates/network/src/node_database.rs:189-276 | an untrusted node that is inserted as trusted, or seen, ends in no table if and only if it had to make room for itself, and its id is then indexed as trusted |
| NodeAgreement.DemotedAgrees | crates/network/src/node_database.rs:438-450 | a demotion keeps the agreement if and only if it is not lossy |
| NodeAgreement.PromotionAgrees | crates/network/src/node_database.rs:222-243 | a promotion keeps it if and only if the node need not make room for itself |
| NodeAgreement.PromotedAgrees | crates/network/src/node_database.rs:406-435 | promotion for a long connection always keeps it |
| NodeAgreement.PromotedAllAgrees | crates/network/src/node_database.rs:406-435 | so does the whole of a promotion of many nodes |
| NodeAgreement.TokenAgrees | crates/network/src/node_database.rs:133-164 | insertion with a token always keeps it, whatever has to be evicted |
| NodeAgreement.BlacklistedAgrees | crates/network/src/node_database.rs:570-582 | blacklisting always keeps it |
| NodeAgreement.StepBucketed | crates/network/src/ip/node_limit.rs:85-277 | an operation keeps every indexed id in a bucket if and only if it is not a lossy demotion |
| NodeAgreement.RunWithinQuota | crates/network/src/ip/node_limit.rs:210-294 | over every run without a lossy demotion no subnet holds more nodes than its quota |
| NodeAgreement.QuotaExceeded | crates/network/src/ip/node_limit.rs:244-255 | with a quota of one, a run of an insertion, a demotion and an insertion after which a subnet holds two nodes |
| SessionLimits.AddAllMatch | crates/network/src/ip/sessions_limit.rs:222-236 | an address is accepted exactly if every limit has fewer live addresses with its key than its quota, and the counters stay the exact numbers of live addresses |
| SessionLimits.RemoveAllMatch | crates/network/src/ip/sessions_limit.rs:238-250 | the refund of a live address never fails and keeps the counters exact |
| SessionLimits.AddMatches | crates/network/src/ip/sessions_limit.rs:120-135 | one counter stays exact, positive and within quota when an address is added |
| SessionLimits.RemoveMatches | crates/network/src/ip/sessions_limit.rs:137-150 | and when one is removed |
| SessionLimits.CompositeLimit.Charge | crates/network/src/ip/sessions_limit.rs:226-236 | all limits are charged or none, and the assertion in the loop holds |
| SessionLimits.CompositeLimit.Refund | crates/network/src/ip/sessions_limit.rs:238-250 | all limits are refunded or none, and the assertion in the loop holds |
| SessionLimits.CompositeLimit.Allows | crates/network/src/ip/sessions_limit.rs:222-224 | true exactly if every limit allows the address |
| SessionManager.StepKeeps | crates/network/src/session_manager.rs:155-311 | every event keeps: index entries point to live sessions that own the id, the counter is the number of live ingress sessions within its maximum, the limits count live addresses; a session object may be removed that stands for the one in its slot, and the only event that panics is a HELLO of an ingress session registered already |
| SessionManager.ReachableKeeps | crates/network/src/session_manager.rs:155-311 | the invariant holds in every reachable state |
| SessionManager.FirstHelloNeverPanics | crates/network/src/session.rs:295-372 | in every reachable state the first HELLO of a session, and every other event, goes through |
| SessionManager.SecondHelloPanics | crates/network/src/session_manager.rs:295-304 | a concrete run in which a second HELLO reaches the same-token panic |
| SessionManager.HelloKeeps | crates/network/src/session_manager.rs:278-311 | a HELLO panics exactly for a registered ingress session and otherwise keeps the invariant |
| SessionManager.CreateKeeps | crates/network/src/session_manager.rs:155-240 | creation never fails its assertion, keeps the invariant, and changes nothing when it is refused |
| SessionManager.RemoveKeeps | crates/network/src/session_manager.rs:243-273 | removal of the session in a slot never fails its assertion, never wraps the counter and keeps the invariant |
| SessionManager.RemoveExactly | crates/network/src/session_manager.rs:243-273 | removal by a session object succeeds and keeps the invariant if and only if the object has the direction and the limit keys of the session in its slot and, if that one is registered, its id |
| SessionManager.CreatedExactly | crates/network/src/session_manager.rs:155-240 | a session is created exactly if it starts, there is room, fewer ingress sessions live than allowed or no live session is registered for the id, and every address limit has room |
| SessionManager.CreatedIsThere | crates/network/src/session_manager.rs:155-240 | the new session is in its slot, found by its id, and all other registrations stand |
| SessionManager.SlotIndexed | crates/network/src/session_manager.rs:155-240 | no entry of an earlier session of the slot is revived |
| SessionManager.HelloRegisters | crates/network/src/session_manager.rs:278-311 | a HELLO makes its session the one found for the id and names exactly the one displaced |
| SessionManager.DisplacedRemoval | crates/network/src/session_manager.rs:243-273 | removing a displaced session leaves the entry of the newer one |
| SessionManager.RemovedSlotIsForgotten | crates/network/src/session_manager.rs:243-273 | after removal no entry points to the slot |
| SessionManager.SessionManager.CreateSession | crates/network/src/session_manager.rs:155-240 | the in-place creation does what the definition says, and its assertion holds |
| SessionManager.SessionManager.RemoveSession | crates/network/src/session_manager.rs:243-273 | for any session object the in-place removal succeeds and keeps the invariant exactly if the object stands for the session in its slot or the slot is empty |
| SessionManager.SessionManager.UpdateIngressNodeId | crates/network/src/session_manager.rs:278-311 | panics exactly if the slot is already the one found for the id; otherwise the id is found at the slot, the one to disconnect is the one found before, and nothing else changes; for a session that greets with the id the invariant is kept |
| SessionManager.SessionManager.GetById | crates/network/src/session_manager.rs:90-94 | finds a session exactly for indexed ids, and it owns the id |
| SessionTags.UntaggedReflects | crates/network/src/session_manager.rs:332-352 | taking a tag out of the index matches taking it from its session, and leaves nothing empty |
| SessionTags.TaggedReflects | crates/network/src/session_manager.rs:354-378 | putting a tag for a free key in matches giving it to the session |
| SessionTags.SessionTagIndex.Add | crates/network/src/session_manager.rs:354-378 | a session has the latest value for a key; both assertions hold |
| SessionTags.SessionTagIndex.Remove | crates/network/src/session_manager.rs:322-330 | all tags go with their session; the assertion in the loop holds |
| SessionTags.SessionTagIndex.RemoveWithTag | crates/network/src/session_manager.rs:332-352 | removes one tag and what becomes empty by it |
| SessionTags.SessionTagIndex.CountWithTag | crates/network/src/session_manager.rs:380-388 | the count is the number of sessions with the tag |
| NeighborChunks.PiecesOfSample | crates/network/src/discovery.rs:724-737 | the chunks in order are the sample, none of them empty or too long, and there is none exactly for an empty sample |
| NeighborChunks.CompletedExactly | crates/network/src/discovery.rs:64-68 | a sound request is complete exactly when every index below the announced number was received |
| NeighborChunks.ReceiveSound | crates/network/src/discovery.rs:381-404 | whatever a peer sends, received indexes stay below the announced number, no chunk is taken twice, and a completed request is gone |
| NeighborChunks.AnyArrivals | crates/network/src/discovery.rs:765-781 | for any reordering and repetition of an answer's chunks each is accepted once, and the request is gone exactly when all have arrived |
| NeighborChunks.ProcessedOnce | crates/network/src/discovery.rs:381-422 | no sampled neighbour is gone on with twice, and after completion all have been |
| NeighborChunks.SelectedOnce | crates/network/src/discovery.rs:724-737 | distinct chunks are part of the sample as a multiset, and all chunks are the whole of it |
| Discovery.TryPingKeeps | crates/network/src/discovery.rs:139-189 | an attempt keeps pings within the limit and waiting ids distinct and not in flight; below the limit nothing is queued |
| Discovery.TryPingTakes | crates/network/src/discovery.rs:139-189 | a node that may and can be pinged ends up in flight or waiting, unless it is being queried |
| Discovery.RefillKeeps | crates/network/src/discovery.rs:477-484 | refilling keeps the queue in order and leaves nodes waiting only at the limit |
| Discovery.NeighboursKeeps | crates/network/src/discovery.rs:381-422 | a chunk of neighbours keeps the queue in order and every query in flight incomplete and sound |
| Discovery.CompletesExactly | crates/network/src/discovery.rs:381-404 | a request ends by a message if and only if the message is valid and new and no chunk is missing after it |
| Discovery.NeighboursEnd | crates/network/src/discovery.rs:381-422 | an answer nobody asked for changes nothing, no other query changes, and the query ends exactly by the chunk that completes it |
| Discovery.ExpiredKeeps | crates/network/src/discovery.rs:438-468 | expiry keeps the queue in order |
| Discovery.AskSends | crates/network/src/discovery.rs:576-603 | exactly the nodes that could be sent are recorded as asked, once each, with a new request in flight |
| Discovery.UnaskedIsFresh | crates/network/src/discovery.rs:561-574 | filtering a sample of distinct ids leaves distinct ids not asked before |
| Discovery.DiscoverKeeps | crates/network/src/discovery.rs:486-515 | a round asks nobody asked before in the process, and counts itself exactly if it asked anybody |
| Discovery.DiscoverAsks | crates/network/src/discovery.rs:486-515 | within one round nobody is asked twice nor anybody asked before, and exactly those asked are recorded |
| Discovery.StepKeeps | crates/network/src/discovery.rs:131-637 | every event keeps all these invariants |
| Discovery.ReachableKeeps | crates/network/src/discovery.rs:131-637 | in every run pings stay within their limit, waiting nodes are distinct and not in flight, a process asks in at most four rounds and sends nobody a second FIND_NODE |
| Discovery.Discovery.TryPingNode | crates/network/src/discovery.rs:139-189 | only pings and waiting nodes change, and no other ping; a node that may and can be pinged is then in flight, waiting or being queried; a new ping is below the limit, with the hash sent; the queue stays in order |
| Discovery.Discovery.TryPingAll | crates/network/src/discovery.rs:131-137 | the loop tries the nodes in order |
| Discovery.Discovery.ReceivePong | crates/network/src/discovery.rs:308-345 | a ping ends if and only if its awaited hash comes, and nothing else changes |
| Discovery.Discovery.ReceiveNeighbours | crates/network/src/discovery.rs:381-422 | an answer nobody asked for changes nothing; a query ends exactly by the chunk that completes it; other queries, the order of the queue and the soundness of requests are kept |
| Discovery.Discovery.UpdateNewNodes | crates/network/src/discovery.rs:477-484 | the refill loop terminates, each pass shrinking the queue, with the limit reached or nobody waiting |
| Discovery.Discovery.DiscoverWithNodes | crates/network/src/discovery.rs:576-603 | the loop asks the nodes it can send to |
| Discovery.Discovery.DiscoverRound | crates/network/src/discovery.rs:486-515 | a round counts itself exactly if it asked anybody, and otherwise ends the process and forgets who was asked; nobody is asked at the fourth step, twice, or again |
| KeyDerivation.OneStep | crates/cfx_key/src/extended.rs:247-373 | from the public key of a secret, a soft step succeeds exactly if the hashed key is between zero and the order and does not cancel the secret; then it is the public key and chain code of the derived secret |
| KeyDerivation.PublicIsPublicOfPrivate | crates/cfx_key/src/extended.rs:94-142 | along every path public derivation succeeds exactly where each step does, and then equals the public key and chain code of private derivation |
| KeyDerivation.HardStepsNeedTheSecret | crates/cfx_key/src/extended.rs:321-330 | no path with a hard step can be derived publicly |
| KeyDerivation.UpperIndexesNeedTheSecret | crates/cfx_key/src/extended.rs:50-58 | a path of indexes can be derived publicly only if all are below two to the thirty-first |
| KeyDerivation.PairsStayConsistent | crates/cfx_key/src/extended.rs:190-200 | derived pairs are consistent and agree with public derivation where that succeeds |
| KeyDerivation.PrivateGoesOn | crates/cfx_key/src/extended.rs:247-268 | a concrete step that private derivation takes and public derivation reports as missing |
| KeyDerivation.CancelledSecretPanicsNext | crates/cfx_key/src/extended.rs:270-292 | after one soft or hard step from a secret, a soft step panics if and only if that step cancelled the secret |
| KeyDerivation.PathPanicsExactly | crates/cfx_key/src/extended.rs:247-292 | from a secret, private derivation along a path panics if and only if some soft step follows a step that cancelled the secret it started from, and never fails otherwise |
| KeyDerivation.ChainCode | crates/cfx_key/src/extended.rs:377-384 | the loop applies the hash a hundred thousand times |
| PhrasesIterator.RankIsLexicographic | crates/cfx_key/src/brain_recover.rs:123-137 | order of ranks is lexicographic order of indexes, both ways |
| PhrasesIterator.RankOfDigits | crates/cfx_key/src/brain_recover.rs:123-137 | every rank below the product is the rank of some indexes |
| PhrasesIterator.DigitsOfRank | crates/cfx_key/src/brain_recover.rs:123-137 | indexes are determined by their rank |
| PhrasesIterator.Successor | crates/cfx_key/src/brain_recover.rs:123-137 | carrying adds exactly one to the rank |
| PhrasesIterator.CombinationsExact | crates/cfx_key/src/brain_recover.rs:98-112 | the announced number is what is yielded exactly if the product fits 64 bits or is a multiple of two to the sixty-four |
| PhrasesIterator.WrappedIsProduct | crates/cfx_key/src/brain_recover.rs:98-110 | the 64-bit fold is the product modulo two to the sixty-four |
| PhrasesIterator.PhrasesIterator.Current | crates/cfx_key/src/brain_recover.rs:114-121 | the words at the indexes, joined by spaces |
| PhrasesIterator.PhrasesIterator.NextIndex | crates/cfx_key/src/brain_recover.rs:123-137 | the carry loop goes to the next rank, or reports that there is none |
| PhrasesIterator.PhrasesIterator.Next | crates/cfx_key/src/brain_recover.rs:142-150 | yields the phrase whose rank is the number of those before; after the last, nothing forever |
| PhrasesIterator.PhrasesIterator.Collect | crates/cfx_key/src/brain_recover.rs:139-151 | run to the end it yields every combination exactly once, in order of rank |
| AccountUnlock.RunKeeps | crates/accounts/src/lib.rs:351-424 | in every run raw secrets are kept only for permanently unlocked accounts |
| AccountUnlock.PermanentUntilLocked | crates/accounts/src/lib.rs:351-396 | a permanent unlock keeps its password and secret over every run without a lock of the account |
| AccountUnlock.PermanentGrantsAll | crates/accounts/src/lib.rs:478-510 | until then every passwordless use of a known account gets through |
| AccountUnlock.LockedGrantsNothing | crates/accounts/src/lib.rs:385-424 | without a new accepted unlock no passwordless use of a locked account gets through |
| AccountUnlock.LockEndsAccess | crates/accounts/src/lib.rs:385-396 | a lock ends access whatever unlock there was |
| AccountUnlock.OneTimeGrantsOnce | crates/accounts/src/lib.rs:405-424 | a one-time unlock permits at most one passwordless use over sign, sign_derived, decrypt, agree and derive_account, and is gone after it |
| AccountUnlock.TimedGrantsUntilEnd | crates/accounts/src/lib.rs:405-424 | a timed unlock permits nothing after its end |
| AccountUnlock.GrantedExactly | crates/accounts/src/lib.rs:405-424 | a passwordless use gets through exactly while the unlock lasts, with the password of the unlock, and uses up only a one-time unlock |
| AccountUnlock.UnlockTakesEffect | crates/accounts/src/lib.rs:351-382 | an accepted unlock takes effect as asked for, unless the account is permanently unlocked |
| AccountUnlock.AccountProvider.UnlockOne | crates/accounts/src/lib.rs:351-382 | the in-place unlock does what the definition says and keeps the maps consistent |
| AccountUnlock.AccountProvider.LockOne | crates/accounts/src/lib.rs:385-396 | likewise locking |
| AccountUnlock.AccountProvider.PasswordOf | crates/accounts/src/lib.rs:405-424 | there is a password exactly while the unlock lasts, it is that of the unlock, the unlock stays exactly if it lasts and is not one-time, and no other unlock changes |
| AccountUnlock.AccountProvider.UseOne | crates/accounts/src/lib.rs:478-510 | likewise a use, by secret for signing and by password otherwise |
| RollingTokens.AcceptedOnce | crates/accounts/src/lib.rs:514-541 | once an issued token is accepted it is never accepted again, over every later run |
| RollingTokens.NextIsAccepted | crates/accounts/src/lib.rs:514-541 | the token returned is accepted next if and only if the account is in the root vault |
| RollingTokens.NamedVaultTokenRefused | crates/accounts/src/lib.rs:514-541 | a concrete account in a named vault whose first token is returned and then refused |
| RollingTokens.OthersGoOn | crates/accounts/src/lib.rs:514-541 | tokens of other sessions and accounts go on being accepted |
| RollingTokens.SignedExactly | crates/accounts/src/lib.rs:514-541 | a signature is given exactly for an accepted token |
| RollingTokens.StepKeeps | crates/accounts/src/lib.rs:514-541 | copies are in the root vault under issued tokens, and no account's own password is a token |
| RollingTokens.AfterChangeElements | crates/cfx_store/src/cfxstore.rs:678-699 | after a change no account has the old password, all others are still there, and some has the new one |
| RollingTokens.OnePass | crates/cfx_store/src/cfxstore.rs:489-513 | one pass of the loop re-keys one more match and disturbs none done before |
| RollingTokens.CfxMultiStore.GetMatching | crates/cfx_store/src/cfxstore.rs:453-462 | the accounts with the password, in order |
| RollingTokens.CfxMultiStore.Import | crates/cfx_store/src/cfxstore.rs:464-487 | the account is found last under its reference and password, and every other lookup finds what it did before |
| RollingTokens.CfxMultiStore.Update | crates/cfx_store/src/cfxstore.rs:489-513 | every account equal to the old one goes and the new one comes last |
| RollingTokens.CfxMultiStore.ChangePassword | crates/cfx_store/src/cfxstore.rs:678-699 | the loop re-keys every account with the old password and no other |
| RollingTokens.TokenSigner.SignMessage | crates/accounts/src/lib.rs:514-541 | the in-place signing does what the definition says |

## Left out

- Cryptographic primitives and the handshake: elliptic curves, hashes, encryption and signatures are parameters, with the group law as the only fact assumed of a curve.
- Unicode: which characters have case is a parameter that agrees with ASCII.
- Traffic: the reading side, which the counters do not depend on; it is in `Connection`.
- `polymod` and the base32 functions of the Python test module: the same loops as their Rust counterparts.
- `write_raw_data`: a single unqueued write outside the framing protocol.
- `check_throttling` and the throttling ratio: comparisons of counters that change nothing.
- Reading and writing of table files and `clear_useless`: disk contents are any tables with disjoint ids; for an id in two files `init` panics or moves it, which is not followed further.
- The index of tags of trusted nodes: insertion replaces a trusted node, tags included, without telling that index.
- NodeIpLimit: buckets are sets and addresses numbers with /24 subnets; sampling from buckets, IPv6 and the preference order among evictees are not modelled, and any member of the right buckets may be chosen.
- SessionManager: locks are taken in one order for the whole of each operation, so operations are modelled as atomic.
- Discovery: UDP packets, signatures, time stamps and the throttling of answers; whether a packet can be sent and whether a filter lets a node through are inputs.
- NeighborChunks: the RLP encoding of messages.
- KeyDerivation: the filling of byte buffers is written as concatenation, and seeds are not turned into master keys.
- PhrasesIterator: substitutions for unknown words; an empty list of lists, for which `next` panics; the multiplication of list sizes wraps as in a release build, where a debug build would stop.
- AccountUnlock: the store's own operations; whether it knows an account and accepts a password is an input of each event.
- RollingTokens: `decrypt_with_token`, whose rolled branch uses the old token after the change; random tokens are assumed new, passwords to be checked exactly, and nobody to choose an issued token as password.
- Blocks, consensus, transactions, RPC, configuration and the command line.
