# A verified model of coap-rs

This project models the stateful parts of coap-rs in Dafny and proves what they promise. Five components are
covered; each is modelled in the form the source gives it, and each method is proved against a specification about
which the laws are then proved.

**The Observe registry** (`src/observer.rs`). `ObserverRegistry.Observer` is the registry with its four
cross-indexed tables, updated in place. `ObserverTables` says what it means for the tables to agree and what they
stand for; `ObserveSpec` gives the same behaviour as transitions on one plain map of observers and one list of
versions per path; `ObserveLaws` and `ObserveRuns` prove the laws of RFC 7641 over steps and whole runs, and
`ObserveReplies` what each event answers and touches, `MessageIds` when the 16-bit message ids are safe,
`Acknowledgements` which acknowledgements retire a notification. `Etag` is the FNV-1a ETag, `EtagCollision` two
payloads that share one.

**Block-wise transfer** (`src/client.rs`, `src/server.rs`). `Client` holds the client's loops over a scripted
network, proved to compute the values of `BlockSpec` and to send what it should; `BlockLaws` proves reassembly and
that a delivery never mixes versions, `UploadLaws` what a server has put together after an upload, `ExchangeLaws`
what `send` returns in every case and what its requests are on the wire. `Server` is the rule by which an observer's
later blocks come from the registry, and `EndToEnd` composes the two: the server runs through any events between any
two block fetches.

**The token multiplexer** (`src/client.rs`). `SyncSpec` is the protocol, one step per lock acquisition or channel
send, with any number of callers and the receive loop interleaved; `ObservationLife` adds observations, their
registrations and terminations, `ObservationFailure` what a failing transport does to them; `Synchronizer` is the
class those steps come from and `ReceiveLoopLaws` tells its loop from the script it is given. `Retransmission` is
the confirmable sending loop against a timed channel.

**The EDHOC Responder** (`src/edhoc/mod.rs`). `EdhocSpec` is the interleaved protocol of message handlers over the
session store, `EdhocLaws` more of its laws, `Edhoc` the store as a class, `EdhocErrors` the error-message encoder
and decoder.

**The route compiler** (`src/router/route.rs`). `RouteSpec` says what a route template means and gives the regular
expressions and their matcher; `Route` holds the scanner and `match_path`.

`dafny verify dfyconfig.toml` checks everything.

## What is taken for granted

- coap-lite: `extending_splice` zero-extends up to a limit and then replaces the range; `BlockValue` has a u16
  number, a `more` flag and a power-of-two size from 16 to 2048; the `BlockHandler` answers a Block2 fetch within
  the payload with that block, at the size asked for, and leaves the ETag alone (`Server.CutsAsAsked`).
- coap-lite prepares a reply for every confirmable and non-confirmable request.
- The regex crate matches anchored patterns of escaped characters and `([^/]+)` groups greedily with backtracking,
  and `regex::escape` yields a pattern for exactly its text.
- lakers is a set of functions about which nothing is assumed (`Edhoc.Lakers`); its CBOR decoder follows RFC 8949
  for arguments of at most one byte.
- A printed socket address holds only digits, lower-case hexadecimal letters and `. : [ ] %`. A socket address is
  its printed form and the IPv6 flow information, which is compared but not printed: a reset compares whole
  addresses while the registry's keys use the printed form.
- The network between client and server is a script of outcomes, one per request, and then timeouts. Message ids and
  other random choices are parameters. Durations are real numbers.

## Where the code and its promises part

- Message ids are u16 and `current_message_id += 1` is modelled with the wrap-around of release builds (a debug
  build panics there), as are the u32 sequence and the u16 block number. That no unwrap of the registry fails is
  false once ids wrap. The input is `MessageIds.IdsRunOut`: an observer that never acknowledges and 65535 PUTs to
  another path; the next id is then still pending, and filing it makes the unwrap in src/observer.rs:411-413 fail
  (`ObserverRegistry.WrappedCounterBreaksUnwrap`). The exact condition on a PUT is `AvailableIds`, on the registry
  before it (`AnyOrderIsSafeIff`, `RoundIsSafeIff`): the path has at most 2^16 observers and none of the next ids is
  pending, the last one apart, which may be for one of them. `RequestHandler` and `ResourceChanged` require it of a
  PUT and nothing else. It holds by itself for the first 65535 notifications of any run (`FirstIdsAreSafe`).
- `set_block1_size` takes any size and a Block1 option can only declare powers of two from 16 to 2048, so an upload
  at another size puts chunks where the server does not: 48 bytes at size 24 are reported as a success and arrive as
  40 (`UploadLaws.SizeTwentyFourLosesBytes`). A chunked upload whose chunks all arrive and are acknowledged gives
  the server the payload iff the size is one the option can declare (`UploadIsSafeIff`).
- The token of a block-wise continuation is 16 random bits, compared with nothing. The observation it belongs to
  keeps its sender iff they differ from the bits behind its own token (`ObservationLife.ContinuationSparesIff`); if
  not, its task ends and its handler is told nothing (`UnluckyDrawEndsObservation`).
- Distinct ETags for distinct versions are a hypothesis: the ETag is four bytes of a hash.
  `EtagCollision.EtagsCollide` gives two payloads of 19 bytes with one ETag, and when one replaces the other between
  two fetches the observe handler gets a payload that the resource never had (`EndToEnd.CollisionIsDelivered`).
- A transport error is sent to every waiting caller except one that checked for the error before it was written and
  registered after the drain (`SyncSpec.TheGap`); and a caller that is sent it returns it only when it comes during
  the last transmission attempt (`Retransmission.FailureIsReportedByTheLastAttempt`).
- The receive loop that cannot send an acknowledgement ends without `fail`. Whoever waits then is sent nothing any
  more, no error either (`SyncSpec.NobodyIsTold`, `SilentForGood`); `FailureReachesAllButLate` says exactly who is
  told, however the loop ended.
- A retransmitted message_3 is replayed once message_4 is stored; one that is looked up earlier is refused with an
  unknown-session error (`EdhocSpec.EarlyRetransmissionIsRefused`).
- `timer_handler` is not called by the server's `run` loop; its steps are modelled as events that may occur at any
  time.
- That an acknowledged notification is not resent is false of retransmissions, which carry the current message id
  and not the pending one. In `Acknowledgements.AcknowledgementsCross` an observer acknowledges what it was resent;
  that retires another client's notification and leaves its own. Acknowledging or resetting a retransmission
  concerns the observer it was sent to iff nobody was notified since (`AnswerToResendIff`).
- It is false of this library's own client altogether: the registry looks for the registered token in an
  acknowledgement, the client registers under a non-empty token and acknowledges with an empty one. Its
  acknowledgements make no difference in any run (`Acknowledgements.OwnAcksMakeNoDifference`), so it is resent
  everything to the end (`AcknowledgedAndResentAnyway`). In general an acknowledgement retires what an observer
  awaits iff it has that id and the registered token (`AckRetiresIff`).
- A response without a readable Block2 option ends a transfer and is returned as it is, even mid-transfer
  (`BlockLaws.MidTransferIsCutShort`); `LastResponseDecides` says when a result is the assembled one.
- A transfer whose first response is a later block is accepted, with zeros in front, if that block ends within the
  first 16 KiB (`BlockLaws.LateStartIsZeroPadded`).

## Model

| member | source | states |
|---|---|---|
| ObserverRegistry.Observer.constructor | src/observer.rs:78-87 | a new registry is coherent and stands for no observers and no versions |
| ObserverRegistry.Observer.IsObserving | src/observer.rs:95-98 | looking up the formatted key is membership of (printed address, path) in the plain registry |
| ObserverRegistry.Observer.GetResourcePayloadAndEtag | src/observer.rs:102-106 | the payload of the latest PUT with its ETag, for exactly the paths ever PUT |
| ObserverRegistry.Observer.RequestHandler | src/observer.rs:121-156 | every request is one enabled step of the plain transition system and keeps the four tables in agreement, a PUT when its ids are available; a request goes on to the handler unless it is an ACK, RST or registration |
| ObserverRegistry.Observer.TimerHandler | src/observer.rs:159-175 | the loop over the snapshot of pending keys is one tick of every pending notification, each exactly once; no unwrap in it can fail |
| ObserverRegistry.Observer.Register | src/observer.rs:177-249 | an upsert of the observation with its first reply, or a NotFound reply when the path was never PUT, under the prepared reply's id and token (ObserveReplies) |
| ObserveReplies.RegistrationIsAnswered | src/observer.rs:177-249 | every registration is answered by exactly one packet if a reply was prepared, under that reply's id and token: a 4.04 without content for a path never set, and then nothing else happens; else a NonConfirmable 2.05 with the latest version at the size asked for, the observer being registered as the request says and awaiting nothing |
| ObserveReplies.PacketOnTheWire | src/observer.rs:538-574 | a packet's message has its type, id and token; it shows a version as 2.05, whole or cut at the size the client asked for, and is an empty 4.04 when there is none |
| ObserveReplies.OnlyConcernedChange | src/observer.rs:121-175 | an event changes only the registrations it concerns: a deregistration or acknowledgement under another token and a reset from another address change nothing |
| ObserveReplies.OnlySomeSend | src/observer.rs:121-175 | only a PUT adds versions or numbers messages; deregistrations, acknowledgements, resets and other requests send nothing |
| ObserveReplies.DeregistrationRemovesIff | src/observer.rs:397-441 | a deregistration removes the observer iff it has the registered token, otherwise the registry stays as it is |
| ObserverRegistry.Observer.Deregister | src/observer.rs:251-262 | removes the observation only when the token is the registered one |
| ObserverRegistry.Observer.ResetNotification | src/observer.rs:267-314 | removes exactly the owner of the pending id, and only when the reset comes from its registered address |
| ObserverRegistry.Observer.ResourceChanged | src/observer.rs:316-334 | appends a version and notifies every observer of the path once, in some order, with consecutive ids recorded as pending, also when an id is that of a notification it retires |
| ObserverRegistry.Observer.UnwrappedIdsAreAvailable | src/observer.rs:576-579 | before the counter wraps the tables of any registry meet what a PUT requires |
| ObserverRegistry.AvailableIff | src/observer.rs:316-334 | what is required of the pending-id table is the condition on the plain registry that is exact for PUTs |
| ObserverRegistry.WrappedCounterBreaksUnwrap | src/observer.rs:409-414 | after the wrap-around run the next notification and its acknowledgement leave another registration with a pending id that is not in the table, where the source unwraps |
| ObserverRegistry.Observer.RecordRegisterResource | src/observer.rs:343-395 | registering upserts one observation, retires what it awaited, and leaves the tables in agreement |
| ObserverRegistry.Observer.RemoveRegisterResource | src/observer.rs:397-441 | both assertions and all unwraps hold; the observation disappears from all four tables iff registered with this token; false iff registered with another |
| ObserverRegistry.Observer.RecordResource | src/observer.rs:443-459 | the sequence counts the PUTs from 0 modulo 2^32 and the ETag is that of the new payload; observers of the path are kept |
| ObserverRegistry.Observer.RecordUnacknowledgeMessage | src/observer.rs:461-480 | the current id becomes the one and only pending id of the registration, unless it is pending for another |
| ObserverRegistry.Observer.TryUnacknowledgeMessage | src/observer.rs:482-511 | one more try while the notification was tried at most ten times, otherwise the pending entry goes and the registration stays |
| ObserverRegistry.Observer.RemoveUnacknowledgeMessage | src/observer.rs:513-527 | an ACK retires the pending id only when it carries the registration's token |
| ObserverRegistry.Observer.NotifyRegisterWithNewestResource | src/observer.rs:538-574 | the packet shows the latest version under the current message id and the registered token and block size |
| ObserverTables.KeysAreInjective | src/observer.rs:581-583 | two keys are equal iff address and path are: a printed address has no separator in it |
| ObserverTables.KeyLookup | src/observer.rs:95-98 | a key is in the table iff its observation is in the plain registry, and is filed under it |
| ObserverTables.IdLookup | src/observer.rs:513-527 | a pending id points at its one owner; an id not in the table has none |
| ObserverTables.ModelledIsWellFormed | src/observer.rs:23-57 | tables that agree stand for a well-formed plain state: every observer's path has a version, tries are 1 to 11, no id has two owners |
| ObserverTables.RecordedIsCoherentIff | src/observer.rs:461-480 | filing an id for any registration, whatever it awaited, keeps the tables in agreement iff the id is not pending for another registration |
| ObserverTables.StaleIdBreaksUnwrap | src/observer.rs:409-414 | filing an id that is, and acknowledging it, leaves its first owner with an id that is gone |
| ObserverTables.RefiledModels | src/observer.rs:343-395 | refiling a registration over an old one keeps table agreement and meaning |
| ObserverTables.DiscardedModels | src/observer.rs:397-441 | removing a registration everywhere keeps table agreement and removes just that observer |
| ObserveLaws.StepKeepsWellFormed | src/observer.rs:121-175 | every enabled event preserves the invariant of the plain state, including distinct pending ids |
| ObserveLaws.RegistryIsAPlainMap | src/observer.rs:177-441 | tokens and block preferences by (address, path): registration upserts, deregistration and reset remove under their conditions, nothing else changes the map |
| ObserveLaws.OnlyOwnerRemoved | src/observer.rs:267-314 | a reset for a pending id concerns its owner alone, and only from the registered address |
| ObserveLaws.OnlyOwnerRetired | src/observer.rs:513-527 | an acknowledgement concerns the owner of the id alone, and only with its token |
| ObserveLaws.IdAfterClosedForm | src/observer.rs:576-579 | the id after n increments is the start plus n modulo 2^16 |
| ObserveLaws.PutNotifiesOnlyObservers | src/observer.rs:316-334 | a PUT sends as many packets as the path has observers, keeps the log before them, and leaves observers of other paths as they were |
| ObserveLaws.PutNotifiesEachObserver | src/observer.rs:316-334 | each observer of the path gets one confirmable notification of the new version and afterwards has exactly its id pending, tried once |
| ObserveLaws.PutIdsAreDistinct | src/observer.rs:576-579 | the ids of one round are consecutive and pairwise different |
| ObserveLaws.PutRetiresOlderNotifications | src/observer.rs:461-480 | after a PUT an id that an observer of the path awaited before is pending for nobody, or for the observer to whom this PUT numbered it anew |
| ObserveRuns.RunKeepsHistory | src/observer.rs:213-248 | over any run every packet with an Observe value shows exactly the PUT of that number, and versions shown for a path never go back |
| ObserveRuns.MessagesTellTheHistory | src/observer.rs:538-574 | on the wire: an Observe value s carries the ETag, Size2 and payload or first block of the s-th PUT to the path |
| ObserveRuns.ObserveValuesNeverDecrease | src/observer.rs:443-459 | Observe values sent for a path never decrease as long as it has seen at most 2^32 PUTs |
| ObserveRuns.EveryObserverIsSentTheLatest | src/observer.rs:316-334 | in any run that answers its registrations, every observer has been sent the latest version of its path, and whatever was sent for the path since shows it too |
| ObserveRuns.TicksAge | src/observer.rs:482-511 | with nothing but ticks, a notification tried t times is pending after k ticks iff t + k is at most 11 |
| ObserveRuns.ElevenTicksSettle | src/observer.rs:159-175 | eleven quiet ticks leave nothing pending |
| ObserveRuns.ResendsAreBounded | src/observer.rs:482-511 | over any run of any events, an observer is sent at most one packet for each registration, and for each PUT to its path a notification and ten retransmissions; between those at most what the pending notification has left |
| ObserveRuns.QuietResends | src/observer.rs:482-511 | the bound is reached: in k ticks alone a notification tried t times is resent exactly min(k, 11 - t) times |
| MessageIds.RoundIsSafeIff | src/observer.rs:316-334 | a notification round keeps the registry's invariant at every turn iff no id it uses is pending for an observer that has not had its turn, and there are at most 2^16 |
| MessageIds.AnyOrderIsSafeIff | src/observer.rs:323-333 | in whatever order the set of observers is walked, iff the ids are available beforehand |
| MessageIds.FirstIdsAreSafe | src/observer.rs:576-579 | in any run that numbers at most 65535 notifications every PUT is safe and the counter counts them |
| MessageIds.IdsRunOut | src/observer.rs:576-579 | a run of 65536 notifications after which the next id is still pending for an observer of another path |
| Acknowledgements.AckRetiresIff | src/observer.rs:513-527 | an acknowledgement retires what an observer awaits iff it has the pending id and the registered token, wherever it comes from |
| Acknowledgements.ResetRemovesIff | src/observer.rs:267-314 | a reset removes an observer that awaits something iff it names that id and comes from the registered address |
| Acknowledgements.AnswerToResendIff | src/observer.rs:538-574 | a tick resends under the current id; acknowledging or resetting that packet concerns its observer iff the id it awaits is the current one |
| Acknowledgements.AcknowledgementsCross | src/observer.rs:159-175 | a run in which acknowledging a retransmission retires another client's notification and not one's own |
| Acknowledgements.OwnAckRetiresNothing | src/client.rs:207-220 | in any run whose registrations carry a token, the acknowledgement this client makes of any packet leaves the registry as it is |
| Acknowledgements.OwnAcksMakeNoDifference | src/client.rs:207-220 | leaving all such acknowledgements out of a run changes nothing in its outcome |
| Acknowledgements.AcknowledgedAndResentAnyway | src/observer.rs:482-511 | a notification tried t times and acknowledged so any number of times is resent min(k, 11 - t) times in k ticks |
| Etag.ComputeEtag | src/observer.rs:110-117 | the loop is the left fold of the FNV-1a round, cut to the first four of eight big-endian bytes |
| Etag.RoundIsInjective | src/observer.rs:112-115 | one round is a bijection of the 64-bit state for a fixed byte, and separates different bytes |
| Etag.FoldIsInjective | src/observer.rs:110-117 | different states stay different under any common suffix |
| Etag.SingleByteChangeIsDetected | src/observer.rs:110-117 | payloads of equal length that differ in one byte have different 64-bit states |
| EtagCollision.EtagsCollide | src/observer.rs:110-117 | two payloads of 19 bytes that differ in both of their 16-byte blocks have one ETag |
| Coap.ExponentIsLargest | src/client.rs:974-976 | the exponent declared for a block size is that of the largest block that fits into it, and says it exactly iff a Block option can |
| Coap.CoapUintRoundTrip | src/observer.rs:61-68 | decoding a Size2 value gives the size back, saturated at 2^32 - 1 |
| Client.HandleBlockwise | src/client.rs:1228-1282 | the request and the transfer state end up as the value-level step says, failures included |
| Client.CheckAck | src/client.rs:987-1032 | the verdict on a chunk's response, with the error kind for each kind of bad acknowledgement |
| Client.CoAPClient.ReceiveWithEtagValidation | src/client.rs:1068-1116 | the result of the whole transfer, and exactly the requests sent: one per block asked for, under consecutive new message ids, otherwise the caller's request without Block1 |
| Client.CoAPClient.Receive | src/client.rs:1039-1060 | the same without an expected ETag |
| Client.CoAPClient.SendRequest | src/client.rs:961-1036 | a payload within the block size goes out once and its reply is the result; a larger one in chunks numbered from 0 under consecutive message ids, each a slice of the payload with its declared size and a more flag that tells the last, up to the first bad or final answer (ExchangeLaws) |
| Client.CoAPClient.Send | src/client.rs:703-707 | upload, then transfer of the answer: the result and all requests sent for both (ExchangeLaws) |
| ExchangeLaws.WholeRequestIsAnswered | src/client.rs:703-707 | a request that fits into a block, as every GET does: no reply is a timeout, an error is passed on, and a response without a readable Block2 option is the result as it is, with or without Block1 |
| ExchangeLaws.WholeRequestFetchesAll | src/client.rs:703-707 | and a response in blocks gives the server's whole payload |
| ExchangeLaws.UploadEnds | src/client.rs:987-1032 | the exact result when chunk j is the first not to be acknowledged with a request for more, or the last: for each kind of bad acknowledgement its error, and otherwise the response; no further chunk is sent |
| ExchangeLaws.UploadBreaksOff | src/client.rs:971-976 | a block size of 4096 or more fails at once, and a payload of more than 2^16 chunks after 2^16 of them |
| ExchangeLaws.EndOfUploadIsReturned | src/client.rs:703-707 | an error of the upload, or an early or final answer without a readable Block2 option, is what `send` returns |
| ExchangeLaws.OutcomeIsDelivered | src/client.rs:878-936 | an observe handler is told everything but WouldBlock: other errors and packets that announce no more blocks as they are |
| ExchangeLaws.WholeRequestOnTheWire | src/client.rs:963-968 | a request that fits goes out once and unchanged, under the next message id if it had none |
| ExchangeLaws.FetchOnTheWire | src/client.rs:1103-1109 | each fetch asks for its block without Block1 and under a message id of its own, otherwise like the request it continues |
| ExchangeLaws.ChunkOnTheWire | src/client.rs:969-986 | each chunk goes out with its number and a more flag that tells the last, under a message id of its own; what arrives of it is what the upload laws assume of a server |
| Client.CoAPClient.RegisterPacket | src/client.rs:746-754 | a registration goes out with the Observe option under the caller's message id and token, or the next id and a drawn token where they are missing, so never without a token |
| Client.CoAPClient.ReceiveAndHandleMessageObserve | src/client.rs:878-936 | what the observe handler is called with, if anything; and the fetches sent, under the token drawn for them, without Observe, under consecutive new message ids |
| BlockLaws.HandleNextBlock | src/client.rs:1228-1282 | the next block of a payload extends what is cached by exactly that block; the last one completes it |
| BlockLaws.ReceiveReassembles | src/client.rs:1039-1060 | against a server that answers with the blocks of one payload, under one ETag where one is expected, the result is that payload after one request for each later block |
| BlockLaws.TransferCompletes | src/client.rs:1228-1282 | the same from any block on, behind or over any cached prefix |
| BlockLaws.ResultUsedConsecutiveBlocks | src/client.rs:1068-1116 | against any peer, an assembled result used one response per block asked for, each with the number asked for, the right more flag and the expected ETag |
| BlockLaws.LastResponseDecides | src/client.rs:1228-1282 | against any peer, a result is the last response verbatim if that has no readable Block2 option; otherwise that response announces no more and the result is it around everything assembled, with its block in place |
| BlockLaws.MidTransferIsCutShort | src/client.rs:1228-1282 | two responses, the second without Block2: the result is the second alone although the first announced more |
| BlockLaws.AskedClosedForm | src/client.rs:1264-1274 | the i-th request asks for the first block's number plus i + 1 modulo 2^16 |
| BlockLaws.TransferIsBounded | src/client.rs:1264-1274 | a transfer that never wraps back to block 0 makes at most 65535 requests less the number it starts from |
| BlockLaws.LateStartIsZeroPadded | src/client.rs:1249-1260 | a transfer that starts with block k is accepted iff that block ends within the first 16 KiB; then it asks for all blocks after it and yields zeros before it |
| BlockLaws.NeverMixesVersions | src/client.rs:1068-1116 | whatever versions the server answers from between fetches, an ETag-checked transfer fails or yields exactly the version it started with |
| BlockLaws.ChangeIsReported | src/client.rs:1075-1096 | when the answer to any fetch is the first with another ETag, or none, the handler gets InvalidData at once and nothing more is asked for |
| BlockLaws.TransferEndsEarly | src/client.rs:1039-1116 | what a transfer yields when fetch j is answered with anything but the block asked for: TimedOut for no reply, the error of an error, InvalidData for another ETag, Interrupted for another number, the response itself without Block2; and nothing more is asked for |
| BlockLaws.CollidingEtagsMix | src/client.rs:1075-1096 | two versions under one ETag get mixed; the result is either of them only if they agree in the other's part |
| UploadLaws.ChunksRebuild | src/client.rs:969-982 | the chunks of a payload, in order, are the payload |
| UploadLaws.UploadWasAcknowledged | src/client.rs:987-1032 | a successful upload never ends in 2.31, and every chunk sent was acknowledged by number, in order, at its own size while more followed |
| UploadLaws.WholeIsPayload | src/client.rs:961-1036 | whenever a server has all blocks up to one without the more flag, in whatever order and however often they came in, it has the payload |
| UploadLaws.UploadIsSafe | src/client.rs:961-1036 | over a lossy, repeating, reordering network and for sizes Block1 can declare: a successful upload ended in an early answer to the chunk just sent, and the server knows that chunks are missing; or it knows that it has all, and what it put together by block number, declared size and more flag is the payload |
| UploadLaws.UploadIsSafeIff | src/client.rs:969-982 | a chunked upload whose every chunk arrives and is acknowledged is reported as a success, and gives the server the payload iff the block size is one a Block1 option can declare |
| UploadLaws.SizeTwentyFourLosesBytes | src/client.rs:1136-1138 | 48 bytes at block size 24: success is reported and the server has 40 bytes |
| UploadLaws.UploadCompletes | src/client.rs:961-1036 | with a cooperative server every chunk is sent and the final answer returned |
| UploadLaws.ExchangeCompletes | src/client.rs:703-707 | a chunked request and a block-wise answer together yield the server's whole payload |
| Server.ServerCoapState.InterceptRequest | src/server.rs:311-332 | the registry takes one step, or none when the block handler ends the request or observing is bypassed; only in the first case is anything required of the request |
| Server.ServerCoapState.InterceptResponse | src/server.rs:334-364 | a block fetch by an observer is answered with that block of the latest recorded version under its ETag; any other response is left to the block handler |
| Server.ShowingLatestIs | src/server.rs:343-356 | what is cut for an observer is the application's response with the latest payload, its ETag and a Size2 that reads as its length |
| Server.RegisteringServesFetches | src/server.rs:334-342 | once a client is registered for a path exactly its requests for it with Block2 and without Observe are served so, and none after it deregistered |
| EndToEnd.ObserveDeliveryIsOneVersion | src/client.rs:878-936 | for any run of the server, any packet it sent and any further events between the fetches: the handler gets an error or exactly the PUT the packet's Observe value numbers, under its ETag |
| EndToEnd.RestingResourceIsDelivered | src/client.rs:878-936 | for any run and any packet of the latest version: if nobody sets the path while its blocks are fetched and the fetches are answered, the handler gets that version whole |
| EndToEnd.CollisionIsDelivered | src/client.rs:1075-1096 | a run of the server in which the resource changes between two payloads of one ETag while a client fetches: the fetch is answered as it should be and the handler gets neither payload |
| EndToEnd.DeliveriesHappen | src/observer.rs:177-249 | a PUT and then a registration make a run whose one packet shows version 0, cut to the size asked for; answers to all its fetches exist, and the handler gets the payload |
| EndToEnd.PhasesAnswer | src/server.rs:334-364 | a server that keeps accepting PUTs only ever answers from the versions recorded at the end |
| SyncSpec.StepKeepsConsistent | src/client.rs:108-150 | every atomic step of callers and receive loop keeps the registry in order |
| SyncSpec.OnlyOwnResponses | src/client.rs:153-205 | in every interleaving a caller is sent only responses with its own token |
| SyncSpec.ResponsesReachTheirCaller | src/client.rs:191-199 | with distinct tokens a response that comes in for a waiting caller is forwarded into its channel |
| SyncSpec.FailureReachesAllButLate | src/client.rs:123-132 | at any time a waiting caller was sent the transport error iff its check found it, or the drain is through and its sender was in by then; so after the loop's end iff it ended with the drain and the caller was not late, and a late one was sent nothing |
| SyncSpec.ErrorsAreTheTransports | src/client.rs:123-132 | in every interleaving any error a caller is sent is one the transport broke with |
| SyncSpec.TheGap | src/client.rs:140-147 | a run in which a caller does fall into that gap |
| SyncSpec.SilentForGood | src/client.rs:179-181 | after a receive loop that ended without the drain no channel is sent anything, whatever happens |
| SyncSpec.NobodyIsTold | src/client.rs:179-181 | a run in which the loop stops so with a caller waiting, which is sent nothing in any continuation |
| SyncSpec.SenderSurvivesIff | src/client.rs:140-150 | in every interleaving a registered sender is still registered iff since then nobody inserted or left under its token and the registry was not drained |
| SyncSpec.SenderStaysForgotten | src/client.rs:316-325 | and stays gone until somebody arrives with the token again |
| ObservationLife.StepKeepsInOrder | src/client.rs:741-813 | registration, failed registration, termination and the end of the task keep every observation in order, whatever tokens anybody uses |
| ObservationLife.OverIsForgotten | src/client.rs:765-772 | an observation whose registration failed, whose termination is through, or that lost its sender, is sent nothing any more |
| ObservationLife.ActiveIsRegistered | src/client.rs:741-813 | in every interleaving of requests, observations, continuations and terminations under tokens not in use when they start, an accepted observation keeps its sender until its termination takes over or the transport fails, and packets for its token go to it |
| ObservationLife.EndingHandsOver | src/client.rs:859-876 | a termination reuses the observation's token: the observation is registered until the termination's sender is, which is from then on |
| ObservationFailure.FailureReachesObservations | src/client.rs:123-132 | after the drain every active observation was sent the transport error, and one being terminated unless its termination had taken over, which then was |
| ObservationLife.TokenIsFree | src/client.rs:765-772 | after a failed registration and after a termination nobody uses the token and nothing is registered under it |
| ObservationLife.ContinuationSparesIff | src/client.rs:896-908 | a continuation leaves its observation registered iff the 16 bits drawn for its token differ from those behind the observation's |
| ObservationLife.UnluckyDrawEndsObservation | src/client.rs:1212-1214 | otherwise the observation's sender is replaced, its task can end at once, and it is sent nothing about that |
| ObservationLife.AcceptanceHappens | src/client.rs:815-857 | a run that ends with an active observation |
| Synchronizer.TransportSynchronizer.CheckForError | src/client.rs:108-115 | a known error is sent to the sender and the check fails |
| Synchronizer.TransportSynchronizer.SetSender | src/client.rs:140-147 | uninterrupted: the check alone when there is an error, else the insertion, returning what it replaced |
| Synchronizer.TransportSynchronizer.RemoveSender | src/client.rs:148-150 | the token is forgotten |
| Synchronizer.TransportSynchronizer.Fail | src/client.rs:123-132 | the key-by-key loop sends every registered sender the error once per token and empties the registry |
| Synchronizer.TransportSynchronizer.ReceiveLoop | src/client.rs:153-205 | acknowledges confirmable responses by message id with an empty token, forwards responses by token, and fails everybody on a transport error but nobody on a failed acknowledgement |
| Synchronizer.PumpIsARun | src/client.rs:153-205 | an uninterrupted receive loop is a run of the protocol |
| ReceiveLoopLaws.LoopFollowsTheScript | src/client.rs:153-205 | over any script: one acknowledgement for each confirmable response handled before the loop stops, in order, with its message id and an empty token, and none besides; every channel is sent the responses under its tokens in order, then the transport's error if it broke, and nothing else; and how the loop ends |
| Retransmission.CoapClientTransport.TrySendConfirmableMessage | src/client.rs:260-278 | the loop sends copies of the same bytes and returns the first success or the last error |
| Retransmission.CoapClientTransport.TrySendNonConfirmableMessage | src/client.rs:286-300 | one transmission and one wait; a closed or silent channel is a timeout |
| Retransmission.CoapClientTransport.DoRequestResponseForPacketInner | src/client.rs:302-314 | only confirmable messages are retransmitted |
| Retransmission.SendingIsBounded | src/client.rs:260-278 | at most n transmissions and a total wait of at most timeout * (2^n - 1) |
| Retransmission.SilenceTakesItAll | src/client.rs:260-278 | to a silent peer all n go out and the wait is exactly that |
| Retransmission.DefaultsWaitAtMost93Seconds | src/client.rs:327-335 | the defaults give at most five transmissions and the 93 s of section 4.8.2 of RFC 7252 |
| Retransmission.DefaultsReach93Seconds | src/client.rs:327-335 | and with the largest factor and a silent peer it takes five transmissions and exactly 93 s |
| Retransmission.ResultIsFirstSuccess | src/client.rs:260-278 | what is returned is the first success in the channel after errors only; later arrivals stay there |
| Retransmission.TimelyResponseIsReturned | src/client.rs:286-300 | a response within the total wait is returned, whichever transmission it answers, and just those have gone out whose waits it took |
| Retransmission.FailureIsReportedByTheLastAttempt | src/client.rs:260-278 | an error in the channel is the caller's result iff it arrives during the last attempt; otherwise the result is a timeout |
| Retransmission.UnencodableIsNeverSent | src/client.rs:280-292 | a message that cannot be encoded is never sent and that error is the result; with no attempts to make it is InvalidData |
| Retransmission.FailingTransportIsReported | src/client.rs:286-300 | when every send fails, all attempts are made without waiting and the last failure is the result |
| Retransmission.ClosedChannelTimesOutAtOnce | src/client.rs:286-300 | a channel without senders gives a timeout without waiting |
| EdhocErrors.TruncatedLength | src/edhoc/mod.rs:251-256 | the truncation loop never underflows, takes at most three steps on valid UTF-8 and stops at the longest whole-character prefix of at most 255 bytes |
| EdhocErrors.BoundariesEndCharacters | src/edhoc/mod.rs:253-255 | the one-byte boundary test finds exactly the ends of characters |
| EdhocErrors.UnspecifiedError | src/edhoc/mod.rs:251-264 | the payload is ERR_CODE 1 and that prefix as a CBOR text string, byte by byte |
| EdhocErrors.UnspecifiedErrorRoundTrip | src/edhoc/mod.rs:198-217 | decoding it gives ERR_CODE 1 and the prefix as the diagnostic |
| EdhocErrors.DecodeIsExact | src/edhoc/mod.rs:198-210 | what decoding returns is the whole payload taken apart, and a payload with anything after it is refused |
| EdhocErrors.LongestPrefixIsUnique | src/edhoc/mod.rs:251-264 | the prefix is determined by the diagnostic, and is all of it when that fits |
| EdhocErrors.ToErrorMessage | src/edhoc/mod.rs:223-245 | for every error the status, ERR_CODE and ERR_INFO the peer decodes: 4.00 with code 2 and the suite supported, or code 3 and true, or an Unspecified Error with its printed form under 4.00 or 5.00 by whose fault it is |
| Edhoc.FreeIdentifiers | src/edhoc/mod.rs:501-509 | the filter lists exactly the one-byte identifiers neither pending nor the Initiator's |
| Edhoc.AllocateConnectionIdentifier | src/edhoc/mod.rs:497-515 | the choice is free; it fails iff none is, and then at least 47 sessions are pending |
| Edhoc.EdhocResponderStore.ProcessMessage1 | src/edhoc/mod.rs:472-493 | each refusal with its own error and no change; otherwise message_2 as lakers prepared it for a free identifier, and a session under that identifier with the Initiator's own and the state lakers made |
| Edhoc.EdhocResponderStore.ProcessMessage3 | src/edhoc/mod.rs:517-582 | a stored message_4 is replayed with sessions and hook untouched; otherwise the session is consumed, and completed and announced, with its secrets and identifiers, iff lakers accepts |
| Edhoc.EdhocResponderStore.ProcessEdhocMessage | src/edhoc/mod.rs:459-470 | the prefix byte decides which of the two happens |
| Edhoc.HandshakeContinues | src/edhoc/mod.rs:472-582 | a message_3 under the C_R chosen for a message_1 is processed with the state lakers made for it, and on success announces that session with the Initiator's identifier and that C_R |
| Edhoc.AnswersTellWhy | src/edhoc/mod.rs:517-563 | why a message_3 is refused, in the order of the checks, that a refusal before lakers' costs no session, and that message_4 is remembered for 247 s |
| Edhoc.HandlerIsARun | src/edhoc/mod.rs:517-582 | an uninterrupted handler is a run of the interleaved protocol: in its store, its answer or refusal, and its call of the hook |
| EdhocSpec.ExhaustionTakes47 | src/edhoc/mod.rs:497-515 | no identifier is free only with 47 sessions pending |
| EdhocLaws.CandidatesAreSmallIntegers | src/edhoc/mod.rs:501-506 | the identifiers to choose from are exactly the one-byte CBOR integers |
| EdhocSpec.StepKeepsConsistent | src/edhoc/mod.rs:472-582 | every step of any handlers keeps sessions distinct, pending or consumed but never both, and told to the hook at most once |
| EdhocSpec.SessionsAreConserved | src/edhoc/mod.rs:406-424 | sessions created are pending plus consumed, at most 48 pending, each identifier different from its Initiator's |
| EdhocSpec.HookFiresAtMostOnce | src/edhoc/mod.rs:571-579 | the hook is called at most once per session, with different Sender and Recipient identifiers |
| EdhocLaws.SessionsAreAsOpened | src/edhoc/mod.rs:472-582 | in any run the n-th session is what the n-th successful message_1 opened, under its C_R with its state; and the hook is told its two identifiers, the Initiator's as Sender |
| EdhocSpec.RefusedOnlyWhenFull | src/edhoc/mod.rs:497-515 | in any run a message_1 finds no identifier only with 47 or 48 sessions pending |
| EdhocSpec.AnswersWereStored | src/edhoc/mod.rs:524-563 | in any run a handler is answered only with a message_4 that a handler of the same payload stored after consuming a session |
| EdhocSpec.ReplayedWithinLifetime | src/edhoc/mod.rs:524-563 | within 247 s of storing message_4 every look-up of that payload is answered with it, whatever happens in between |
| EdhocLaws.ForgottenAfterLifetime | src/edhoc/mod.rs:524-532 | a look-up 247 s or more after message_4 was stored misses, unless the payload was completed again |
| EdhocSpec.EarlyRetransmissionIsRefused | src/edhoc/mod.rs:524-548 | two handlers of one message_3 that both missed: the first succeeds and the second is refused |
| RouteSpec.JoinSplit | src/router/route.rs:93 | joining the segments of a route with slashes gives it back, and no segment holds a slash |
| RouteSpec.TrimSplits | src/router/route.rs:93 | a text is slashes, what trimming leaves, and slashes; what is left is empty or begins and ends with another character |
| RouteSpec.TrimIsUnique | src/router/route.rs:93 | and nothing else splits it so |
| RouteSpec.SensorsRoute | src/router/route.rs:250-262 | the documentation's route, slashes around it or not, has a template with its two names, and its path fits with the two values |
| RouteSpec.PrintIsInjective | src/router/route.rs:85-161 | a plain template can be read back from its printed form in only one way |
| RouteSpec.OneFault | src/router/route.rs:110-143 | by brace counts a segment is well braced or has exactly one kind of fault |
| Route.ScanSegment | src/router/route.rs:104-148 | the character loop reports a fault the brace counts show, or extends the pattern by a template that prints as the segment |
| Route.BuildRegex | src/router/route.rs:85-161 | panics iff some segment is not well braced, with the first such segment's fault; otherwise the regex is that of the one template that prints as the slash-trimmed route |
| Route.TemplateIsDetermined | src/router/route.rs:85-161 | a route's template is determined by its text |
| Route.New | src/router/route.rs:63-72 | a route is the compilation of its own text |
| Route.OneNamePerGroup | src/router/route.rs:131-133 | a pattern has as many groups as parameter names |
| RouteSpec.CapturesFit | src/router/route.rs:171-172 | every match puts non-empty slash-free values for the parameters and rebuilds the path |
| RouteSpec.FittingIsCaptured | src/router/route.rs:171-172 | a path with a decomposition matches, and the match is the decomposition longest from the left |
| RouteSpec.DecompositionIsUnique | src/router/route.rs:85-161 | with at most one parameter per segment there is at most one decomposition |
| RouteSpec.TwoPerSegmentAreAmbiguous | src/router/route.rs:85-161 | with two it need not be unique |
| Route.MatchPath | src/router/route.rs:167-188 | DifferentPath iff the template has no decomposition of the trimmed path; else the decoded values of the greediest one under the parameter names, or FailedToDecodePath iff one does not decode |
| Route.OuterSlashesDoNotMatter | src/router/route.rs:167-172 | routes and paths that differ only in slashes at their ends give the same answer |

## Left out

- ObserverRegistry.Observer.NotifyRegisterWithNewestResource: packets count as sent when handed to the encoder; one that coap-lite cannot encode is dropped after that.
- ObserverRegistry.Observer.ResourceChanged: what the registry does after a PUT whose ids are not available, beyond the first unwrap that fails; the order in which a hash set is walked is left open.
- ObserverRegistry.Observer.RequestHandler: a deregistration without a source, which panics.
- UploadLaws.UploadIsSafe: for block sizes that Block1 can declare; `UploadIsSafeIff` says what happens otherwise, for uploads that arrive complete and in order.
- ObservationLife.ActiveIsRegistered: requires tokens not in use when a request or observation starts, since the code compares them with nothing; `ContinuationSparesIff` says what a collision does.
- Client.CoAPClient.SendRequest: requires a positive block size for a non-empty payload, as `chunks` does.
- EndToEnd.ObserveDeliveryIsOneVersion: replies that come neither from the registry nor without an ETag are covered only as far as they are blocks of a recorded version; retransmissions of a notification are log entries like others.
- Server.ServerCoapState.InterceptResponse: the cache of coap-lite's BlockHandler is not modelled; a fetch it serves itself is assumed to be a block of some recorded version.
- Edhoc.EdhocResponderStore.ProcessMessage3: the credential look-up is part of the function that stands for lakers' processing of message_3, so is the export of the OSCORE secrets.
- EdhocErrors.ToErrorMessage: the printed form of an error is a parameter.
- Route.BuildRegex: the size limit of the regex crate, which can also panic.
- SyncSpec.FailureReachesAllButLate: `fail` is run by the one receive loop of a client; a second call from outside is not modelled.
- Retransmission.CoapClientTransport.TrySendConfirmableMessage: rounding of `mul_f32` and the randomness of the factor.
- Liveness: whether a step that is enabled is ever taken is up to the runtime.
- Sockets, tasks and channels as such, multicast, `UdpCoapListener` and DTLS.
- CoAP message encoding, the block handler and link-format of coap-lite, and `src/discovery.rs`, which rests on them.
- The rest of the router: extractors, path deserializer, handlers, responses, macros, first-match dispatch.
- `RequestBuilder`, URL parsing, percent decoding (a parameter of `Route.MatchPath`).
- EDHOC cryptography, credential parsing, and the Initiator: its exchange of messages and the context it ends with, which lakers hands over.
