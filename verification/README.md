# Verification of the chat runtime

A Dafny model of the parts of the chat runtime whose correctness rests on interleaving or on exact
bytes, with proofs. `dafny verify dfyconfig.toml` checks everything.

JavaScript runs one stretch of code between two awaits at a time. Each stateful component is therefore
modelled twice: as a step machine on values (the `...Spec` and `...Runs` modules, where what every run
keeps is proved), and as a class with the component's fields and one method for each stretch, whose
contract says that the method takes exactly one step of that machine. Suspended coroutines are data, so
any order of calls is an interleaving. What may never happen is one half; that what should happen does, and
exactly when, is proved in the `...Progress` modules, in `HandshakeConnects` and in `Delivery`.

| files | what they model |
|---|---|
| `Membership.dfy` | the signed member list, its codec and signature check |
| `GroupSpec.dfy`, `LinkSpec.dfy`, `GroupProgress.dfy`, `GroupSession.dfy` | the group protocol: author, members, links |
| `Replay.dfy`, `Codec.dfy`, `Manifest.dfy` | replay window, frame codecs, nonces, chunking, manifests |
| `TransferSpec.dfy`, `Receiver.dfy` | receiving transfers |
| `SenderSpec.dfy`, `SenderProgress.dfy`, `CancelRuns.dfy`, `Sender.dfy` | sending and cancelling |
| `Delivery.dfy` | from the sender's log over the wire to the receiving host |
| `HandshakeCodec.dfy` | hello, transcript, key schedule |
| `HandshakeSpec.dfy`, `HandshakeRuns.dfy`, `Handshake.dfy` | the handshake's coroutines |
| `HandshakeProgress.dfy`, `HandshakeConnects.dfy` | where each await leads; that undisturbed peers connect |
| `HandshakeIsolation.dfy`, `HandshakePeers.dfy` | what stale coroutines can do; what a wired session proves of its peer |
| `BrokerSpec.dfy`, `BrokerProgress.dfy`, `Broker.dfy` | rooms, connections, relay, presence |
| `AtRest.dfy`, `AtRestProgress.dfy`, `RateLimit.dfy` | key manager, token bucket |
| `Identities.dfy` | pairwise ids, safety numbers, invitation links |
| `Bytes.dfy` | bytes, big-endian integers, comparison, buffers |

Hashes, signatures, key agreement, authenticated encryption, the curve test and UTF-8 validity are
parameters. What a proof needs of them is a precondition where it is used: key agreement commutes
(`Commutes`), sealing opens under its key and to nothing else (`Sound`), and what verifies
under an honest key was signed with it (`GroupSpec.Unforged`, `HandshakePeers.Unforged`). Strings are their UTF-8
bytes, and the text decoder's habit of dropping a leading byte-order mark is modelled.

## What the code does not promise

Six properties one might expect are false of the code. Each has a concrete input or run that shows it, and
a theorem that says, for all inputs or runs, exactly when the property holds.

* A member name that starts with a byte-order mark does not survive the membership codec, and every
  honest receiver discards the author's list that contains it (`BomNameLost`). The comment at
  `packages/chat-runtime/src/group/membership.ts:320-328` says that the re-encoding is identical to the
  wire prefix; it is, exactly when no name starts with that mark (`Reencodes`, `SignedListVerifies`).
* The same holds for file names in manifests (`ManifestRoundTrip`), and a file name that consists of the
  mark arrives empty although empty names are refused (`EmptyNameAdmitted`; exactly when:
  `EmptyNameExactly`, `EmptyNameReceived`).
* Cancelling a file that two `sendFile` calls drive under one id does not stop it
  (`TwiceDrivenEscapesCancel`); driven by one call it does (`CancelDiscipline`), and
  `CancelEscapesExactly` says which cancels can be escaped.
* A coroutine of a torn-down handshake that fails tears down a newer one (`StaleFailureReachesFresh`,
  `StaleRejectionTearsDown`), exactly where something of an older attach is still in flight
  (`IsolatedExactly`, `AttachesAlone`, `TornDownByItsOwn`); it can never wire anything into it
  (`WiringSafety`).
* Setting a passphrase can open a locked manager without an unlock (`PassphraseOpensLock`), exactly when
  it is set while the manager is locked with the key in memory (`LockHoldsUnless`); work begun before a
  lock cannot undo it (`LockSupersedes`).
* A verified link need not be the one its identity leads to (`TwinsBothVerified`); after an adoption every
  one is exactly when no two links share a listed identity (`AdoptionIndexes`).

Several guards of the code cannot fire; they stand in the methods with `assert false` in their branch:
the size, budget, missing-chunk and length guards of the receiver, the encoder's refusal of the
author's current list, the cancel after an exhausted sequence space, and the refusals of the
connection-state validator after the signature check.

## Model

| member | source | states |
|---|---|---|
| Membership.CountAuthors | packages/chat-runtime/src/group/membership.ts:71-77 | The count is one exactly when one entry carries the author flag (with `OneAuthor`, `NoAuthors`) |
| Membership.OneAuthor | packages/chat-runtime/src/group/membership.ts:124-129 | A list with author count one has exactly one flagged entry |
| Membership.EncoderAccepts | packages/chat-runtime/src/group/membership.ts:99-129 | The encoder accepts exactly the lists whose fields fit the wire, whose identities are distinct, that have one author entry, and that are within the cap |
| Membership.EncodeEntries | packages/chat-runtime/src/group/membership.ts:130-151 | Stops at the first faulty entry with that entry's fault; otherwise the parts join to the entries' wire form |
| Membership.EncodeMembershipBody | packages/chat-runtime/src/group/membership.ts:99-162 | Returns the signed byte range, or the first fault in the order of the checks |
| Membership.EncodeMembership | packages/chat-runtime/src/group/membership.ts:184-191 | Succeeds exactly for encodable lists with a 64-byte signature, with the wire form |
| Membership.SignedBodyInjective | packages/chat-runtime/src/group/membership.ts:90-98 | The signed bytes determine group id, epoch and every member |
| Membership.WireInjective | packages/chat-runtime/src/group/membership.ts:20-31 | A payload is the wire form of at most one list |
| Membership.DecodeEntry | packages/chat-runtime/src/group/membership.ts:239-291 | Reads an entry exactly when its key is on the curve, its reserved bits are zero and its name is in bounds and valid UTF-8 |
| Membership.DecodeEntries | packages/chat-runtime/src/group/membership.ts:235-303 | The entry loop: accepts exactly what a list with distinct identities encodes to; `MembershipInvalid` exactly when readable entries repeat an identity |
| Membership.DecodeMembership | packages/chat-runtime/src/group/membership.ts:206-318 | Accepts exactly the wire forms of proper lists within the clamped cap, and tells the rest apart: `MemberLimitReached` exactly above the cap, `MembershipInvalid` exactly for a whole list that is not proper or entries that repeat an identity before anything unreadable, and `Malformed` for all else |
| Membership.RoundTrip | packages/chat-runtime/src/group/membership.ts:184-191 | Under any cap at least its length an encoded list decodes to itself exactly when no name starts with a byte-order mark |
| Membership.Reencodes | packages/chat-runtime/src/group/membership.ts:320-328 | An accepted payload can be encoded again; the bytes are identical exactly when no name on the wire starts with a byte-order mark |
| Membership.BomNameLost | packages/chat-runtime/src/group/membership.ts:41-41 | A concrete list that the codec does not give back: its author is named by a byte-order mark |
| Membership.DecodedExactly | packages/chat-runtime/src/group/membership.ts:206-318 | What the decoder answers is exactly what the payload decodes to |
| Membership.VerifyMembership | packages/chat-runtime/src/group/membership.ts:329-336 | True exactly when the list has one author entry and the signature verifies under that key over the re-encoded body |
| Membership.SignedListVerifies | packages/chat-runtime/src/group/membership.ts:320-336 | A list its author signed verifies at a receiver exactly when no member name starts with a byte-order mark |
| Membership.DiffsExact | packages/chat-runtime/src/group/membership.ts:338-354 | The two diffs account for the whole change of the set of identities |
| GroupSpec.RosterEncodes | packages/chat-runtime/src/group/group-session.ts:1035-1041 | The author's lists are proper, name the author as author, and encode at every epoch that fits 32 bits and at no other |
| GroupSpec.ChangeKeepsRoster | packages/chat-runtime/src/group/group-session.ts:504-594 | Join, kick and rename turn an author's list into an author's list, adding, removing and moving exactly the identities they should |
| GroupSpec.AuthorNextKeeps | packages/chat-runtime/src/group/group-session.ts:1034-1118 | Every step of a mutation or an on-demand signing keeps: what is captured or signed at an epoch is the list of that epoch |
| GroupSpec.OneListPerEpoch | packages/chat-runtime/src/group/group-session.ts:1136-1148 | Over every interleaving, the author signs one list per epoch, proper and accepted by the encoder |
| GroupSpec.NextListEncodes | packages/chat-runtime/src/group/group-session.ts:1090-1095 | The next list is refused by the encoder only when the epochs are used up |
| GroupSpec.DeliverKeeps | packages/chat-runtime/src/group/group-session.ts:853-938 | An adoption strictly raises the epoch, and a pinned author key never changes |
| GroupSpec.AdoptsSigned | packages/chat-runtime/src/group/group-session.ts:866-884 | A list that verifies under the honest author's key is a list that author signed |
| GroupSpec.StepKeeps | packages/chat-runtime/src/group/group-session.ts:866-938 | Every step of one honest author and any number of members keeps: a member pinned to that author adopted only lists it signed |
| GroupSpec.RunKeeps | packages/chat-runtime/src/group/group-session.ts:199-209 | Over a run each member's adoptions only grow, its pin stays, and a closed member stays as it was |
| GroupSpec.Agreement | packages/chat-runtime/src/group/group-session.ts:853-938 | For any number of members and any network: members pinned to the honest author adopt only lists it signed, at rising epochs, and hold the same list at the same epoch |
| LinkSpec.ConnectedKeeps | packages/chat-runtime/src/group/group-session.ts:651-730 | A link reaching Connected keeps: verified exactly when listed (member) or authenticated (author), the index sound, the link bound |
| LinkSpec.AdoptionKeeps | packages/chat-runtime/src/group/group-session.ts:936-979 | After an adoption a link stays exactly when its peer is unauthenticated, or listed, or this is the first list; so an authenticated peer two successive lists leave out has no link |
| LinkSpec.AdoptionOutcome | packages/chat-runtime/src/group/group-session.ts:936-979 | The same for the whole link table, with record identities kept |
| LinkSpec.BetweenStep | packages/chat-runtime/src/group/group-session.ts:956-979 | One turn of the reconciliation loop settles one link and touches no other |
| LinkSpec.WithoutRemovedKeeps | packages/chat-runtime/src/group/group-session.ts:939-946 | The removal pass closes only verified links of removed members |
| LinkSpec.ConnectedIndexed | packages/chat-runtime/src/group/group-session.ts:651-730 | Where every verified link is the one its identity leads to, a link reaching Connected keeps it so |
| LinkSpec.AdoptionIndexes | packages/chat-runtime/src/group/group-session.ts:947-972 | After an adoption every verified link is the one its identity leads to if and only if no two links share an identity of the new list |
| LinkSpec.TwinsBothVerified | packages/chat-runtime/src/group/group-session.ts:947-972 | It does happen: two links of one identity wait for the first list, and adoption verifies both and indexes one |
| GroupProgress.AdoptsExactly | packages/chat-runtime/src/group/group-session.ts:853-938 | A verified list is taken exactly when the member is open, its epoch is higher, and its author is the pinned one or none is pinned; the member then stands at that list and closes exactly when the list drops it; otherwise nothing of it moves |
| GroupProgress.JoinSigned | packages/chat-runtime/src/group/group-session.ts:1057-1095 | A newcomer is signed into the next list, at its end, exactly when it is not listed and the list has a seat |
| GroupProgress.KickSigned | packages/chat-runtime/src/group/group-session.ts:504-520 | A listed member that is kicked is on no entry of the next signed list, and everybody else stays |
| GroupProgress.RenameSigned | packages/chat-runtime/src/group/group-session.ts:799-813 | A rename is signed into the next list exactly when it changes an entry, and changes that name alone |
| GroupProgress.NewestWins | packages/chat-runtime/src/group/group-session.ts:853-938 | Newest list wins, over every run and network: an open member pinned to the honest author stands at the highest epoch among that author's lists that arrived, and holds the list that came with it |
| GroupProgress.PinnedToFirst | packages/chat-runtime/src/group/group-session.ts:883-938 | Over every run an open member is pinned to the author of the first list that arrived at it, and to nobody exactly when none did |
| GroupProgress.CatchesUp | packages/chat-runtime/src/group/group-session.ts:853-938 | Once the newest list the honest author signed arrived at an open member whose first list was that author's, the member holds exactly that list |
| GroupProgress.ConnectedExactly | packages/chat-runtime/src/group/group-session.ts:651-730 | Which links that report Connected are closed, verified and indexed, or kept waiting, by the identity, the index and the list alone; no other link moves |
| GroupSession.GroupSession.constructor | packages/chat-runtime/src/group/group-session.ts:227-299 | An author starts at epoch one with its own entry, anyone else with nothing; the invariant holds |
| GroupSession.GroupSession.CloseLink | packages/chat-runtime/src/group/group-session.ts:1180-1209 | A live link leaves both tables; the index entry goes only if it is this link's |
| GroupSession.GroupSession.DropLink | packages/chat-runtime/src/group/group-session.ts:364-369 | Exactly the link of that peer goes |
| GroupSession.GroupSession.AttachLinkTransport | packages/chat-runtime/src/group/group-session.ts:378-434 | The old link of the peer goes; a fresh unverified one enters exactly when the cap and the orchestrator allow it; links stay below the member cap |
| GroupSession.GroupSession.OnLinkConnected | packages/chat-runtime/src/group/group-session.ts:651-730 | The link is closed, verified, flagged or asked for the list as specified; an unknown peer let in by the author is queued to join; the name is announced and the list asked for as specified; the invariant is kept if the link reports no second identity |
| GroupSession.GroupSession.OnStateChange | packages/chat-runtime/src/group/group-session.ts:615-627 | A report of the orchestrator has exactly the specified effect on the live link, the queue and what is sent; a disconnected link goes |
| GroupSession.GroupSession.RequestFailed | packages/chat-runtime/src/group/group-session.ts:832-843 | The latch of the live link opens again, and no other link is touched |
| GroupSession.GroupSession.OnPendingVerifyTimeout | packages/chat-runtime/src/group/group-session.ts:816-828 | Closes the link exactly when it is live and unverified |
| GroupSession.GroupSession.Attributed | packages/chat-runtime/src/group/group-session.ts:628-639 | Content is attributed exactly on a verified link; on a member only to an identity on its current list |
| GroupSession.GroupSession.Leave | packages/chat-runtime/src/group/group-session.ts:520-527 | Closes the session with every link |
| GroupSession.GroupSession.HandleInboundMembership | packages/chat-runtime/src/group/group-session.ts:871-875 | Exactly the lists of this group that the payload decodes to and that advance the epoch go on to verification |
| GroupSession.GroupSession.VerifyDone | packages/chat-runtime/src/group/group-session.ts:876-918 | A list that verified becomes list, epoch and pin exactly when the member is open, its epoch is higher and the pin agrees, and the member closes exactly when the list drops it; otherwise nothing changes; the links that survive are exactly the specified ones |
| GroupSession.GroupSession.AdoptMembership | packages/chat-runtime/src/group/group-session.ts:926-1003 | Adoption: list, epoch and pin as specified, links reconciled, and a member the list drops leaves |
| GroupSession.GroupSession.ReconcileAll | packages/chat-runtime/src/group/group-session.ts:956-979 | The loop over a snapshot, in any order, has one outcome on the links |
| GroupSession.GroupSession.AskAll | packages/chat-runtime/src/group/group-session.ts:996-1002 | Every connected link is asked again, and nothing else is sent or touched |
| GroupSession.GroupSession.KickMember | packages/chat-runtime/src/group/group-session.ts:493-511 | Queues the removal unless the caller is not the author, the session is closed or the target is the author itself |
| GroupSession.GroupSession.UpdateDisplayName | packages/chat-runtime/src/group/group-session.ts:562-595 | Refuses long names; otherwise takes the name, announces it once on each connected link and, on the author, queues one rename if it changed |
| GroupSession.GroupSession.OnAnnouncement | packages/chat-runtime/src/group/group-session.ts:749-763 | A readable name is kept with the link, and queued for the entry exactly when it differs |
| GroupSession.GroupSession.NothingLost | packages/chat-runtime/src/group/group-session.ts:1141-1148 | Over every run what was enqueued is what was taken so far, in order, followed by what is still queued |
| GroupSession.GroupSession.StartNext | packages/chat-runtime/src/group/group-session.ts:1141-1148 | One queued mutation is taken, in arrival order, and exactly the list it asks for goes to signing if it has something to do; a newcomer without a seat loses its link |
| GroupSession.GroupSession.ApplyMembershipChange | packages/chat-runtime/src/group/group-session.ts:1090-1095 | The next list is encoded for the next epoch; only an exhausted epoch refuses |
| GroupSession.GroupSession.SignDone | packages/chat-runtime/src/group/group-session.ts:1095-1108 | The signed list becomes current at the next epoch and goes to every connected link, and to no other; a failed signature changes nothing |
| GroupSession.GroupSession.GossipDone | packages/chat-runtime/src/group/group-session.ts:1109-1115 | Only after the gossip the dropped member's link is closed |
| GroupSession.GroupSession.AnswerAsMember | packages/chat-runtime/src/group/group-session.ts:1011-1027 | A member answers a request with the list it adopted, on the live connected link that asked and no other |
| GroupSession.GroupSession.AnswerAsAuthor | packages/chat-runtime/src/group/group-session.ts:1011-1042 | The author hands its signed list to the live connected link that asked and no other, or captures the current one for signing |
| GroupSession.GroupSession.AnswerSigned | packages/chat-runtime/src/group/group-session.ts:1042-1054 | The list signed on demand goes to the link that asked, if it is still live and connected, and never replaces a list of a later epoch |
| Replay.Window.Observe | packages/chat-runtime/src/crypto/aead.ts:35-65 | The slot array implements the set specification: accepted exactly when never accepted and above the highest minus the size; a rejection changes nothing |
| Replay.Window.Shift | packages/chat-runtime/src/crypto/aead.ts:42-45 | The in-place shift moves every kept mark and clears the rest |
| Replay.Window.Admit | packages/chat-runtime/src/crypto/aead.ts:101-108 | The window sees only authentic frames |
| Replay.NeverReleasedTwice | packages/chat-runtime/src/crypto/aead.ts:28-65 | No sequence is released twice in any run of frames |
| Replay.ForgeriesInvisible | packages/chat-runtime/src/crypto/aead.ts:101-108 | Frames that fail authentication do not influence what is released |
| Replay.FreshInWindowAccepted | packages/chat-runtime/src/crypto/aead.ts:35-65 | A fresh authentic sequence within the window is always accepted |
| Codec.EncodeAad | packages/chat-runtime/src/protocol/codec.ts:228-238 | The 46 bytes, or the first failing assertion |
| Codec.AadInverse | packages/chat-runtime/src/protocol/codec.ts:228-262 | Bytes decode to an AAD exactly when it encodes to them |
| Codec.HeaderInverse | packages/chat-runtime/src/protocol/codec.ts:264-293 | The same for the frame header with its ciphertext cap |
| Codec.DeriveNonce | packages/chat-runtime/src/protocol/codec.ts:434-445 | The nonce, or a refusal of wrong lengths and ranges |
| Codec.NonceInjective | packages/chat-runtime/src/protocol/codec.ts:434-445 | Two sequences of one session never share a nonce |
| Codec.RolesOpposite | packages/chat-runtime/src/protocol/codec.ts:391-402 | Two peers derive opposite roles, and fail together exactly when their keys are equal |
| Codec.TransferCancelInverse | packages/chat-runtime/src/protocol/codec.ts:416-432 | A transfer-cancel payload decodes to an id exactly when it is its four bytes |
| Bytes.CompareBytes | packages/chat-runtime/src/protocol/codec.ts:381-389 | The loop computes lexicographic order |
| Bytes.CompareZero | packages/chat-runtime/src/protocol/codec.ts:381-389 | Only equal strings compare as equal |
| HandshakeCodec.EncodeTranscript | packages/chat-runtime/src/protocol/codec.ts:295-333 | The 343 bytes, or the first failing assertion |
| HandshakeCodec.TranscriptInverse | packages/chat-runtime/src/protocol/codec.ts:295-379 | Decoding and encoding are inverse on transcripts whose four keys are valid points |
| HandshakeCodec.TranscriptInjective | packages/chat-runtime/src/protocol/codec.ts:295-333 | The signed transcript bytes determine every field, including the auth mode |
| Codec.EncodeWireFrame | packages/chat-runtime/src/framing/wire.ts:8-32 | Header, nonce and ciphertext in order, or the first failing check |
| Codec.WireInverse | packages/chat-runtime/src/framing/wire.ts:8-75 | A byte string is accepted as a frame exactly when that frame encodes to it with the ciphertext length it declares |
| Manifest.ChunksTile | packages/chat-runtime/src/framing/manifest.ts:41-56 | The chunks tile the file and each fits the frame cap |
| Manifest.ChunkingRoundTrip | packages/chat-runtime/src/framing/manifest.ts:41-56 | Cutting into chunks and joining gives the file back, for every size |
| Manifest.EncodeManifest | packages/chat-runtime/src/framing/manifest.ts:58-147 | The manifest bytes, or the first failing check |
| Manifest.DecodesOnlyEncodings | packages/chat-runtime/src/framing/manifest.ts:149-254 | Nothing but an encoding is accepted |
| Manifest.ManifestRoundTrip | packages/chat-runtime/src/framing/manifest.ts:22-22 | A manifest comes back unchanged exactly when neither text starts with a byte-order mark |
| Manifest.EmptyNameExactly | packages/chat-runtime/src/framing/manifest.ts:149-193 | An accepted manifest arrives with an empty name exactly when the sent name is only a byte-order mark, or is no UTF-8 and is repaired to nothing or to that mark |
| Manifest.EmptyNameReceived | packages/chat-runtime/src/framing/manifest.ts:149-193 | The same of every payload a receiver accepts |
| Manifest.EmptyNameAdmitted | packages/chat-runtime/src/framing/manifest.ts:149-193 | Such a manifest exists: named by the mark alone |
| TransferRuns.NextKeeps | packages/chat-runtime/src/framing/receiver.ts:289-498 | Every step keeps the byte accounts, the budget, the limit of four and the shape of each transfer |
| TransferRuns.RunKeeps | packages/chat-runtime/src/framing/receiver.ts:289-498 | So does every run |
| TransferRuns.OnlyGenuineFiles | packages/chat-runtime/src/framing/receiver.ts:449-482 | A file reported complete has the announced hash and size |
| TransferRuns.DroppedNeverCompletes | packages/chat-runtime/src/framing/receiver.ts:449-498 | A transfer dropped by cancel, sweep or teardown, even while its hash is pending, is not reported complete unless announced anew |
| TransferRuns.ChunkFits | packages/chat-runtime/src/framing/receiver.ts:396-410 | After the canonical-length and duplicate checks the size and budget guards cannot fire |
| TransferRuns.EndToEnd | packages/chat-runtime/src/framing/receiver.ts:351-482 | Chunks in any order, repeated and mixed with other traffic: the file is reported at most once, exactly, and is reported once all arrived |
| TransferRuns.ActivityNoted | packages/chat-runtime/src/framing/receiver.ts:275-423 | A transfer's last activity is the time of its manifest or of the last chunk that filled an empty slot; nothing else of the traffic moves it |
| TransferSpec.CommittedIsDeclared | packages/chat-runtime/src/framing/receiver.ts:58-69 | Buffered plus outstanding bytes are the declared sizes of the live transfers |
| Receiver.FrameReceiver.Bounds | packages/chat-runtime/src/framing/receiver.ts:411-418 | In every reachable state the counters are the sums over the live transfers, within the budget, with at most four live |
| Receiver.FrameReceiver.Ingest | packages/chat-runtime/src/framing/receiver.ts:115-129 | Frames are served in arrival order |
| Receiver.FrameReceiver.StartNext | packages/chat-runtime/src/framing/receiver.ts:161-200 | The next frame is matched to session and nonce; a bad one fails alone |
| Receiver.FrameReceiver.DecryptResolved | packages/chat-runtime/src/framing/receiver.ts:161-222 | Only an authentic frame the window accepts takes a step, and none after teardown; the step is the one its own AAD and plaintext ask for |
| Receiver.FrameReceiver.CancelTransfer | packages/chat-runtime/src/framing/receiver.ts:131-137 | Drops the transfer and subtracts it once |
| Receiver.FrameReceiver.Teardown | packages/chat-runtime/src/framing/receiver.ts:139-159 | Everything is dropped and the counters are zero |
| Receiver.FrameReceiver.SweepInactiveTransfers | packages/chat-runtime/src/framing/receiver.ts:275-287 | Exactly the transfers idle too long are dropped and reported, each once |
| Receiver.FrameReceiver.HandleManifest | packages/chat-runtime/src/framing/receiver.ts:289-349 | Admission with the limit and budget checks |
| Receiver.FrameReceiver.HandleChunk | packages/chat-runtime/src/framing/receiver.ts:351-423 | A chunk is stored or refused as specified; the later guards are proved dead |
| Receiver.FrameReceiver.Reassemble | packages/chat-runtime/src/framing/receiver.ts:425-448 | The loop rebuilds the contents; its missing-chunk and length guards are proved dead |
| Receiver.FrameReceiver.HashResolved | packages/chat-runtime/src/framing/receiver.ts:449-482 | After the hash: reported only if the transfer is still the same one and the hash agrees |
| Receiver.FrameReceiver.DropTransfer | packages/chat-runtime/src/framing/receiver.ts:484-497 | The counters lose exactly what the transfer accounted for |
| Sender.FrameSender.Sequence | packages/chat-runtime/src/framing/sender.ts:364-384 | A frame takes the next number, unless torn down or exhausted |
| Sender.FrameSender.SendText | packages/chat-runtime/src/framing/sender.ts:79-82 | Exactly the text frame is appended to the log, unless the sender is torn down or out of numbers |
| Sender.FrameSender.SendControl | packages/chat-runtime/src/framing/sender.ts:84-105 | Exactly the control frame is appended to the log, unless its subtype is unknown or the sender is torn down or out of numbers |
| Sender.FrameSender.BeginFileTransfer | packages/chat-runtime/src/framing/sender.ts:127-138 | Reserves a fresh id; never more than four |
| Sender.FrameSender.SendFile | packages/chat-runtime/src/framing/sender.ts:140-170 | Refuses unreserved ids and oversized files; a reserved id is released on failure |
| Sender.FrameSender.HashResolved | packages/chat-runtime/src/framing/sender.ts:170-202 | The manifest is sequenced unless the transfer was stopped |
| Sender.FrameSender.CancelLost | packages/chat-runtime/src/framing/sender.ts:203-228 | The cancel tried after exhaustion is never sequenced |
| Sender.FrameSender.SendChunk | packages/chat-runtime/src/framing/sender.ts:194-202 | Releases, parks, fails or sequences the next chunk as specified |
| Sender.FrameSender.FrameEncrypted | packages/chat-runtime/src/framing/sender.ts:187-237 | The chunk loop goes on; the call resolves exactly when the last frame is out |
| Sender.FrameSender.Resume | packages/chat-runtime/src/framing/sender.ts:333-341 | A woken call checks again before it sends |
| Sender.FrameSender.RejectWaiters | packages/chat-runtime/src/framing/sender.ts:343-350 | Backwards through the list, exactly the waiters of the transfer are rejected and leave |
| Sender.FrameSender.CancelTransfer | packages/chat-runtime/src/framing/sender.ts:249-273 | True exactly for an active transfer, and at most once per transfer |
| Sender.FrameSender.HandleDrain | packages/chat-runtime/src/framing/sender.ts:294-310 | Every waiter is settled and none stays |
| Sender.FrameSender.TearDown | packages/chat-runtime/src/framing/sender.ts:275-292 | Every waiter is rejected, every reservation goes, and nothing is sequenced |
| SenderRuns.NextKeeps | packages/chat-runtime/src/framing/sender.ts:45-384 | Every step keeps counters, reservations, parking, cancelling and the script of each transfer |
| SenderRuns.NoncesDistinct | packages/chat-runtime/src/framing/sender.ts:321-331 | Over any mix of sends no two frames are encrypted under one nonce |
| SenderRuns.ExhaustedIsFinal | packages/chat-runtime/src/framing/sender.ts:321-331 | After exhaustion no step sequences a frame |
| SenderRuns.CancelDiscipline | packages/chat-runtime/src/framing/sender.ts:240-273 | For a transfer one call drives: no frame after the cancel, and a TransferCancel only after its manifest and all its frames |
| SenderRuns.TwiceDrivenEscapesCancel | packages/chat-runtime/src/framing/sender.ts:229-236 | Without that condition it fails: a concrete run of two calls on one id sends after the cancel |
| CancelRuns.CancelEscapesExactly | packages/chat-runtime/src/framing/sender.ts:180-273 | For every reached sender and active transfer: some continuation of the cancel sends a frame of it if and only if two calls drive it, one of them is at work, and the sequence space outlasts the cancel frame |
| SenderRuns.CancelledOnce | packages/chat-runtime/src/framing/sender.ts:249-273 | A cancelled transfer cannot be cancelled again |
| SenderRuns.WaitersSettle | packages/chat-runtime/src/framing/sender.ts:294-350 | Each parked call has one waiter, none for a cancelled transfer or torn-down sender, and a drain wakes it |
| SenderRuns.SentCompletely | packages/chat-runtime/src/framing/sender.ts:194-202 | A transfer reported sent was sequenced as its manifest and then every canonical chunk, once and in order |
| SenderRuns.Reservations | packages/chat-runtime/src/framing/sender.ts:127-138 | At most four reservations; ids are never reused |
| SenderProgress.CallSends | packages/chat-runtime/src/framing/sender.ts:79-105 | A text and a control call append exactly their own frame unless torn down or exhausted, and touch nothing else |
| SenderProgress.BeginReserves | packages/chat-runtime/src/framing/sender.ts:127-138 | A reservation is granted exactly while the sender stands, fewer than four are held and ids are left |
| SenderProgress.AwaitsLead | packages/chat-runtime/src/framing/sender.ts:170-237 | Where each await of a file call leads: the manifest, the next chunk in order, the end, or a parking place |
| SenderProgress.CancelExactly | packages/chat-runtime/src/framing/sender.ts:249-273 | A cancel takes effect exactly on a reserved transfer: its parked calls wake to their end, and a TransferCancel is sequenced exactly when the manifest was marked as sent and numbers are left |
| SenderProgress.TornDownIsFinal | packages/chat-runtime/src/framing/sender.ts:275-292 | After a teardown no step sequences a frame |
| SenderProgress.SendsFile | packages/chat-runtime/src/framing/sender.ts:140-237 | From any reached state a reserved file with numbers left for it is sent completely by a call that is not stopped and finds the transport free |
| Framing.LogCarried | packages/chat-runtime/src/framing/sender.ts:364-384 | Whatever is sequenced can be framed: manifests name their own transfer and pass the encoder, ids and positions fit 32 bits |
| Framing.FrameTravels | packages/chat-runtime/src/framing/sender.ts:364-384 | A sequenced frame is encoded exactly unless it is a text or control frame over the cap, and the peer hands its decryption exactly the AAD it was sealed under |
| Framing.FrameAsks | packages/chat-runtime/src/framing/receiver.ts:161-274 | What a frame of the sender asks of the receiver: the same text, control message, cancelled id, manifest as decoded, or chunk under its own position with its own bytes |
| Delivery.MessageArrives | packages/chat-runtime/src/framing/receiver.ts:161-274 | A released frame of the sender has at the receiver exactly the effect it was sent for |
| Delivery.TextDelivered | packages/chat-runtime/src/framing/receiver.ts:161-192 | A text sent in any reached state of a standing sender, and short enough, is encoded, handed to decryption under its AAD, and once released shown to the peer's host as it was sent |
| Delivery.ManifestArrives | packages/chat-runtime/src/framing/receiver.ts:289-349 | The released manifest of a sent file is admitted with what the sender announced |
| Delivery.FileArrives | packages/chat-runtime/src/framing/receiver.ts:161-482 | Over authentic frames handed to the decryption, in any order and however often: a file reported sent is reported by the receiver at most once, with exactly its bytes, only once every chunk was released, and is reported once they were |
| Delivery.FileDelivered | packages/chat-runtime/src/framing/receiver.ts:161-482 | If every chunk frame is handed over after the manifest and none a whole replay window late, the file is reported, once and with the sender's bytes |
| HandshakeCodec.EncodeHello | packages/chat-runtime/src/orchestrator/handshake-codec.ts:110-117 | The 163 bytes of a hello |
| HandshakeCodec.HelloInverse | packages/chat-runtime/src/orchestrator/handshake-codec.ts:110-140 | Bytes decode to a hello exactly when it is valid and encodes to them |
| HandshakeCodec.SameTranscript | packages/chat-runtime/src/orchestrator/handshake-codec.ts:158-185 | From swapped hellos both peers build one transcript; they fail together, only for equal identities |
| HandshakeCodec.AgreeOnHellos | packages/chat-runtime/src/orchestrator/handshake-codec.ts:158-185 | Equal transcript bytes mean the same two hellos, conversation and auth mode |
| HandshakeCodec.BuildTrafficKeyInfo | packages/chat-runtime/src/crypto/session.ts:125-142 | The label followed by the PAKE secret, if any |
| HandshakeCodec.DeriveSessionKeys | packages/chat-runtime/src/crypto/session.ts:34-123 | The keys of the schedule or the first fault; all five secret buffers end as zeros |
| HandshakeCodec.KeysMatch | packages/chat-runtime/src/crypto/session.ts:34-123 | Both sides derive keys or neither does, with or without a PAKE secret, and each send key is the other's receive key |
| Handshake.Orchestrator.AttachTransport | packages/chat-runtime/src/orchestrator/orchestrator.ts:791-863 | A new attach exactly from Waiting or Signaling with a conversation or on a group link; it is the next generation, on its transport, with its key generation started |
| Handshake.Orchestrator.Leave | packages/chat-runtime/src/orchestrator/orchestrator.ts:1063-1081 | Teardown and Disconnected, once |
| Handshake.Orchestrator.Retry | packages/chat-runtime/src/orchestrator/orchestrator.ts:1091-1126 | Back to Signaling exactly when disconnected, named and not blocked by an authentication failure |
| Handshake.Orchestrator.TeardownSession | packages/chat-runtime/src/orchestrator/orchestrator.ts:2318-2459 | Every field of the handshake is reset |
| Handshake.Orchestrator.FailHandshake | packages/chat-runtime/src/orchestrator/orchestrator.ts:2258-2316 | The first failure tears down; later ones change nothing |
| Handshake.Orchestrator.Catch | packages/chat-runtime/src/orchestrator/orchestrator.ts:2258-2316 | A rejection that reaches its catch ends an attach that has not failed yet |
| Handshake.Orchestrator.HandshakeTimeout | packages/chat-runtime/src/orchestrator/orchestrator.ts:2258-2316 | So does the timer |
| Handshake.Orchestrator.HandleInbound | packages/chat-runtime/src/orchestrator/orchestrator.ts:1224-1290 | Messages are dispatched, parked or dropped as specified |
| Handshake.Orchestrator.DispatchHandshakeMessage | packages/chat-runtime/src/orchestrator/orchestrator.ts:1299-1390 | One hello per handshake; signatures and other messages as specified |
| Handshake.Orchestrator.MaybeSignAndSend | packages/chat-runtime/src/orchestrator/orchestrator.ts:1480-1501 | The transcript of both hellos is handed to signing |
| Handshake.Orchestrator.KeysGenerated | packages/chat-runtime/src/orchestrator/orchestrator.ts:1190-1222 | A superseded key generation leaves the handshake alone |
| Handshake.Orchestrator.TranscriptSigned | packages/chat-runtime/src/orchestrator/orchestrator.ts:1501-1511 | At most one signature is sent, on the transport of its own attach |
| Handshake.Orchestrator.Resolve | packages/chat-runtime/src/orchestrator/orchestrator.ts:1412-1478 | The id is set, stored and checked, then parked messages are replayed in order |
| Handshake.Orchestrator.VerifyPeerAndComplete | packages/chat-runtime/src/orchestrator/orchestrator.ts:1519-1614 | The latch lets one completion through |
| Handshake.Orchestrator.SignatureVerified | packages/chat-runtime/src/orchestrator/orchestrator.ts:1614-1636 | A superseded completion stops; otherwise Verifying, which the validator cannot refuse |
| Handshake.Orchestrator.PeerLookedUp | packages/chat-runtime/src/orchestrator/orchestrator.ts:1639-1675 | A changed peer key is an authentication failure |
| Handshake.Orchestrator.DeriveKeys | packages/chat-runtime/src/orchestrator/orchestrator.ts:1744-1750 | Keys from the transcript and key pair of the attach |
| Handshake.Orchestrator.PakeExchanged | packages/chat-runtime/src/orchestrator/orchestrator.ts:1692-1743 | A superseded exchange stops; otherwise derivation follows its secret |
| Handshake.Orchestrator.KeysDerived | packages/chat-runtime/src/orchestrator/orchestrator.ts:1744-1776 | A superseded derivation stops |
| Handshake.Orchestrator.SafetyNumberComputed | packages/chat-runtime/src/orchestrator/orchestrator.ts:1772-1793 | A superseded completion stops; a known peer is connected at once, with framing of this attach |
| Handshake.Orchestrator.PeerStored | packages/chat-runtime/src/orchestrator/orchestrator.ts:1783-1890 | A superseded completion stops; otherwise the session is connected, with framing of this attach |
| Handshake.Orchestrator.WireFraming | packages/chat-runtime/src/orchestrator/orchestrator.ts:1795-1903 | Sender and receiver from the fields of the attach; the move to Connected cannot be refused |
| HandshakeRuns.NextKeeps | packages/chat-runtime/src/orchestrator/orchestrator.ts:1172-1903 | Every step of every coroutine keeps the invariant |
| HandshakeRuns.NotSuperseded | packages/chat-runtime/src/orchestrator/orchestrator.ts:1905-1928 | Not superseded means: the latest attach, not torn down, with its own key pair and transport |
| HandshakeRuns.WiringSafety | packages/chat-runtime/src/orchestrator/orchestrator.ts:1786-1882 | Every wiring takes its transport, transcript, session ids and keys from one attach; a signature over that transcript verified under the peer identity; a stored peer key is that identity; no attach has two |
| HandshakeRuns.SignatureSafety | packages/chat-runtime/src/orchestrator/orchestrator.ts:1492-1511 | Every signature sent is over its attach's transcript, on its transport, once |
| HandshakeRuns.StepsAreLegal | packages/chat-runtime/src/orchestrator/orchestrator.ts:2461-2480 | The transition validator never refuses a step |
| HandshakeIsolation.StaleRejectionTearsDown | packages/chat-runtime/src/orchestrator/orchestrator.ts:2258-2316 | What is not promised: a rejection that arose under an earlier attach tears down the present one exactly when there is one |
| HandshakeIsolation.IsolatedExactly | packages/chat-runtime/src/orchestrator/orchestrator.ts:817-863 | A live attach is safe from rejections of other attaches, over every continuation, if and only if all that is in flight is its own |
| HandshakeIsolation.AttachesAlone | packages/chat-runtime/src/orchestrator/orchestrator.ts:809-863 | An attach begins with its own coroutines only exactly when nothing was in flight before it |
| HandshakeIsolation.TornDownByItsOwn | packages/chat-runtime/src/orchestrator/orchestrator.ts:809-863 | Such an attach is torn down only by a rejection of its own, its timer, or a drop |
| HandshakeIsolation.StaleFailureReachesFresh | packages/chat-runtime/src/orchestrator/orchestrator.ts:2258-2316 | A concrete run in which the first attach's rejection tears down the second |
| HandshakePeers.PeerTookPart | packages/chat-runtime/src/orchestrator/orchestrator.ts:1614-1640 | Authentication: if what verifies under a key was signed with it, then whoever a wired session names as its peer sent, in one of its attaches, a signature over the same transcript, from the swapped hellos, for the same conversation and auth mode |
| HandshakePeers.PeersMatch | packages/chat-runtime/src/orchestrator/orchestrator.ts:1744-1803 | Two orchestrators wired on one such attach each expect the session id the other sends under, and hold matching keys without a PAKE or with one PAKE secret |
| HandshakePeers.ListOrTranscript | packages/chat-runtime/src/orchestrator/orchestrator.ts:1492-1511 | The key that signs transcripts also signs member lists: the bytes can be equal only for a list of four members whose group id begins with the two version bytes and whose epoch ends in the auth mode and a key's first byte |
| HandshakeProgress.Parties | packages/chat-runtime/src/orchestrator/orchestrator.ts:1614-1680 | A completion of a standing attach works on the transcript of its two hellos, and its peer is the one of the accepted hello |
| HandshakeProgress.VerifyReturns | packages/chat-runtime/src/orchestrator/orchestrator.ts:1614-1638 | From every reached state: the signature check leads on exactly when the signature verifies under the identity key of the peer's hello; otherwise the handshake fails |
| HandshakeProgress.LookupReturns | packages/chat-runtime/src/orchestrator/orchestrator.ts:1639-1675 | From every reached state: a changed key fails as an authentication failure; otherwise keys are derived, in a PAKE session after its exchange |
| HandshakeProgress.ExchangeReturns | packages/chat-runtime/src/orchestrator/orchestrator.ts:1692-1750 | From every reached state: an await in the middle of a PAKE leads to the next, its secret to the derivation |
| HandshakeProgress.DeriveReturns | packages/chat-runtime/src/orchestrator/orchestrator.ts:1744-1776 | From every reached state: derived keys lead to the safety number |
| HandshakeProgress.NumberReturns | packages/chat-runtime/src/orchestrator/orchestrator.ts:1772-1803 | From every reached state: with the safety number a known peer is connected with framing of its attach, and a new one is stored first |
| HandshakeProgress.StoreReturns | packages/chat-runtime/src/orchestrator/orchestrator.ts:1783-1890 | From every reached state: a stored new peer is connected with framing of its attach, unless the attach was superseded |
| HandshakeProgress.FailuresReported | packages/chat-runtime/src/orchestrator/orchestrator.ts:1172-1222 | A coroutine that fails is gone, and a rejection of its own attach is on its way |
| HandshakeProgress.FailureEnds | packages/chat-runtime/src/orchestrator/orchestrator.ts:2258-2316 | A delivered rejection or the timer ends an attach that has not failed yet: nothing of it stays |
| HandshakeProgress.MessageRefused | packages/chat-runtime/src/orchestrator/orchestrator.ts:1299-1390 | From every reached state of a handshake: a message starts a failure exactly when it is a second, unreadable or own hello, a signature of another version or before the transcript, a refused PAKE message, or one that may not be kept |
| HandshakeConnects.NeverStuck | packages/chat-runtime/src/orchestrator/orchestrator.ts:1172-1803 | An undisturbed attach that is not connected yet always has a step of its own to take |
| HandshakeConnects.GetsThrough | packages/chat-runtime/src/orchestrator/orchestrator.ts:791-1890 | From every reached state with nothing in flight: an attach with a fair peer, known or new, with or without a PAKE, paired or on a group link, ends connected on its own transport, transcript, session ids and keys, in whatever order its awaits and the two messages come |
| HandshakeConnects.BothConnect | packages/chat-runtime/src/orchestrator/orchestrator.ts:791-1890 | Two such orchestrators with swapped hellos both connect, on one transcript, with crossed session ids and matching keys |
| Invitation.CodedRoundTrip | packages/chat-runtime/src/orchestrator/orchestrator.ts:729-736 | A coded link read by `join` gives id and code back exactly when the code is six digits, for any base URL |
| Broker.RoomRegistry.Join | packages/chat-runtime/src/broker/room-registry.ts:170-242 | Seats the socket exactly when no check refuses, with the close code of the refusal otherwise |
| Broker.RoomRegistry.TakeSeat | packages/chat-runtime/src/broker/room-registry.ts:202-242 | Mode, duplicate and seat-cap checks |
| Broker.RoomRegistry.Leave | packages/chat-runtime/src/broker/room-registry.ts:244-262 | The socket's seat goes, and an empty room with it |
| Broker.RoomRegistry.RemoveSocket | packages/chat-runtime/src/broker/room-registry.ts:264-280 | The scan gives up the seat in every room |
| Broker.RoomRegistry.GetPeer | packages/chat-runtime/src/broker/room-registry.ts:287-298 | The other seat of a pair room |
| Broker.RoomRegistry.GetPeerById | packages/chat-runtime/src/broker/room-registry.ts:301-307 | The seat of a peer id in a group room |
| Broker.RoomRegistry.ListPeers | packages/chat-runtime/src/broker/room-registry.ts:313-333 | Every other seat, in order |
| BrokerProgress.RefusalCodes | packages/chat-runtime/src/broker/room-registry.ts:170-242 | What a refused client gets to see, for each reason: nothing for a malformed join, else the close of its reason |
| BrokerRuns.SeatAgreement | packages/chat-runtime/src/broker/room-registry.ts:160-280 | Over every run: a connection names exactly the seat its socket holds, no socket has two, no room is empty, the caps hold |
| BrokerRuns.ModeIsFixed | packages/chat-runtime/src/broker/room-registry.ts:195-211 | A room keeps its mode while it exists |
| Broker.BrokerConnection.HandleJoin | packages/chat-runtime/src/broker/connection.ts:90-149 | A second join is closed; a seat taken is announced as specified |
| Broker.BrokerConnection.HandleLeave | packages/chat-runtime/src/broker/connection.ts:151-174 | Group members are told, pair peers are not |
| Broker.BrokerConnection.OnClose | packages/chat-runtime/src/broker/connection.ts:71-88 | The remaining peers are told and the seat is given up |
| Broker.BrokerConnection.NotifyPeerLeft | packages/chat-runtime/src/broker/connection.ts:185-201 | Every other group member, or the other pair seat, is told |
| Broker.BrokerConnection.RelayMessage | packages/chat-runtime/src/broker/connection.ts:203-230 | Writes exactly what `BrokerSpec.HandleRelay` says, of which `BrokerProgress.RelayExactly` says to whom and what; no room and no connection changes |
| BrokerRuns.NextKeeps | packages/chat-runtime/src/broker/connection.ts:71-230 | Every step of every connection keeps seat agreement and presence |
| BrokerRuns.PresenceTracksSeats | packages/chat-runtime/src/broker/connection.ts:121-201 | What a group member last heard of a peer id is a join exactly when that id is seated now and was seated after it |
| BrokerProgress.RelayExactly | packages/chat-runtime/src/broker/connection.ts:203-230 | Relaying, exactly: the output of a seated sender is one entry for the other seat of its pair room, or for the addressed seat of its group room, and else it is empty; the entry is the stripped frame, or the close where the backlog is over the bound |
| BrokerProgress.JoinExactly | packages/chat-runtime/src/broker/connection.ts:90-129 | A join takes the last seat of its room, and nothing else moves, exactly when the connection has none, the ids are well-formed and the room has a free seat of the mode; otherwise no room and no connection changes |
| BrokerProgress.JoinTold | packages/chat-runtime/src/broker/connection.ts:121-149 | Who is told of a join: every other seat of a group room once, or the first seat of a pair room when this was the second |
| BrokerProgress.LeaveExactly | packages/chat-runtime/src/broker/connection.ts:71-88 | Leaving and closing give up exactly the socket's seat, and a room that empties |
| BrokerProgress.LeaveTold | packages/chat-runtime/src/broker/connection.ts:151-201 | Who is told of it: every other seat of a group room once; in a pair room the other seat when the socket closed and nobody when it left |
| BrokerRuns.RelayIsolation | packages/chat-runtime/src/broker/connection.ts:18-33 | A relayed frame reaches only the addressed (or other) seat of the sender's room, names the sender's true peer id, and carries no address |
| Broker.BrokerConnection.ForwardTo | packages/chat-runtime/src/broker/protocol.ts:243-259 | A socket whose backlog is over the bound is closed instead |
| AtRest.NextKeeps | packages/chat-runtime/src/runtime/at-rest-key-manager.ts:166-304 | Every step keeps: one key, in memory, in storage and in every suspended copy |
| AtRest.OneKey | packages/chat-runtime/src/runtime/at-rest-key-manager.ts:94-119 | Over every run storage holds the first key, clear or sealed; once loaded, an unlocked manager has it |
| AtRest.LockSupersedes | packages/chat-runtime/src/runtime/at-rest-key-manager.ts:122-132 | A call suspended before a lock leaves lock, key and unlock listeners as it finds them, whatever happens in between |
| AtRest.LockHoldsUnless | packages/chat-runtime/src/runtime/at-rest-key-manager.ts:199-300 | From any lock on, over every run in which nobody unlocks, the manager is found open if and only if a passphrase was set while it was locked with the key in memory and that wrap came back before the next lock |
| AtRest.PassphraseOpensLock | packages/chat-runtime/src/runtime/at-rest-key-manager.ts:267-300 | A concrete run in which a load and a new passphrase open a locked manager |
| AtRest.AtRestKeyManager.EnsureLoaded | packages/chat-runtime/src/runtime/at-rest-key-manager.ts:167-185 | Generates, reads or stays locked |
| AtRest.AtRestKeyManager.Get | packages/chat-runtime/src/runtime/at-rest-key-manager.ts:187-197 | The one key, unless locked or not loaded |
| AtRest.AtRestKeyManager.LockNow | packages/chat-runtime/src/runtime/at-rest-key-manager.ts:199-220 | The key is dropped and the repository's buffer is wiped in place; no suspended copy is touched |
| AtRest.AtRestKeyManager.UnlockStart | packages/chat-runtime/src/runtime/at-rest-key-manager.ts:222-240 | Immediate in the clear mode, suspended otherwise |
| AtRest.AtRestKeyManager.UnlockFinish | packages/chat-runtime/src/runtime/at-rest-key-manager.ts:246-265 | Unlocks, with the key of the wrap in memory, exactly if the passphrase opens it and no lock came in between; otherwise lock, key and listeners stay |
| AtRest.AtRestKeyManager.SetPassphraseStart | packages/chat-runtime/src/runtime/at-rest-key-manager.ts:267-279 | Takes a copy of the key before it waits |
| AtRest.AtRestKeyManager.SetPassphraseFinish | packages/chat-runtime/src/runtime/at-rest-key-manager.ts:280-300 | Storage seals that copy; the lock opens only if none came in between |
| AtRestProgress.LoadExactly | packages/chat-runtime/src/runtime/at-rest-key-manager.ts:167-185 | Loading keeps a key in memory, else reads the stored one, makes a first one, or locks where it is sealed |
| AtRestProgress.LockExactly | packages/chat-runtime/src/runtime/at-rest-key-manager.ts:199-220 | Locking drops the key and supersedes what is suspended; the listeners fire on the transition only |
| AtRestProgress.UnlockExactly | packages/chat-runtime/src/runtime/at-rest-key-manager.ts:222-240 | An unlock does nothing without a stored key, opens at once with a key in the clear, and waits for its derivation otherwise |
| AtRestProgress.ResumeExactly | packages/chat-runtime/src/runtime/at-rest-key-manager.ts:246-265 | An unlock that resumes opens the manager with the first key and fires its listeners exactly when its passphrase opens the wrap and its epoch is current; otherwise it changes neither lock, key nor listeners |
| AtRestProgress.RightPassphraseUnlocks | packages/chat-runtime/src/runtime/at-rest-key-manager.ts:222-265 | Over every run: where storage seals the key under a passphrase, an unlock with it opens the manager with the first key, if and only if no lock comes before it resumes |
| AtRestProgress.PassphraseSeals | packages/chat-runtime/src/runtime/at-rest-key-manager.ts:267-300 | Over every run: setting a passphrase ends with the first key sealed under it, and with the manager open unless a lock came in between |
| AtRest.FinishWrap | packages/chat-runtime/src/crypto/at-rest.ts:201-218 | Salt, nonce and ciphertext in the fixed layout; key-encryption key and snapshot end as zeros |
| AtRest.UnwrapsWrapped | packages/chat-runtime/src/crypto/at-rest.ts:188-252 | The passphrase of a wrap opens it, and no passphrase opens it to another key |
| RateLimit.RateLimiter.ConsumeRateToken | apps/web/src/server/ice-config.ts:115-151 | Granted exactly when the refilled bucket has a token, with the table as specified |
| RateLimit.TableIsRecency | apps/web/src/server/ice-config.ts:113-137 | The table is the recency order of all keys ever used, cut to its bound |
| RateLimit.EvictedAfterManyOthers | apps/web/src/server/ice-config.ts:118-130 | A key is evicted only after as many distinct other keys as the table holds were used since its last hit |
| RateLimit.Potential | apps/web/src/server/ice-config.ts:138-150 | Tokens and waiting time cover every further grant |
| RateLimit.ReachedTableOk | apps/web/src/server/ice-config.ts:101-151 | Every table reached from the empty one holds each key once, below the capacity, with no refill in the future |
| RateLimit.RateBound | apps/web/src/server/ice-config.ts:99-100 | Over every run from the empty table: in a window of T ms a key that stays in the table is granted at most 20 and one per full six seconds |
| RateLimit.BurstServed | apps/web/src/server/ice-config.ts:87-151 | Over every run: a key the table does not hold is granted every one of its next hits up to the twentieth, however fast they come and whatever other keys do |
| RateLimit.SteadyClientServed | apps/web/src/server/ice-config.ts:87-98 | A client that waits a refill interval between hits is never refused |
| Identities.DerivePairwiseConvId | packages/chat-runtime/src/group/pairwise-id.ts:38-60 | The first 16 bytes of the hash of the ordered material, for valid inputs only |
| Identities.PairsAgree | packages/chat-runtime/src/group/pairwise-id.ts:24-37 | Both ends derive one conversation id and one safety number |
| Identities.PairMaterialInjective | packages/chat-runtime/src/group/pairwise-id.ts:47-57 | What is hashed determines the group and the unordered pair |
| Identities.FillPair | packages/chat-runtime/src/crypto/safety-number.ts:51-60 | The buffer holds id, smaller key, larger key |
| Identities.Group | packages/chat-runtime/src/crypto/safety-number.ts:32-39 | Two-digit groups with spaces |
| Identities.RenderInjective | packages/chat-runtime/src/crypto/safety-number.ts:41-49 | Two renderings are equal exactly when the 40-bit values agree modulo 10^12 |
| Identities.GroupNumberIgnoresOrder | packages/chat-runtime/src/crypto/safety-number.ts:65-127 | The group number does not depend on the order of the members |
| Identities.GroupMaterialInjective | packages/chat-runtime/src/crypto/safety-number.ts:105-124 | What is hashed determines group, epoch and members |
| Invitation.ConversationIdToHex | packages/chat-runtime/src/orchestrator/invitation.ts:28-34 | Two lowercase digits per byte |
| Invitation.HexToConversationId | packages/chat-runtime/src/orchestrator/invitation.ts:36-48 | Reads exactly 32 lowercase digits |
| Invitation.UnhexHex | packages/chat-runtime/src/orchestrator/invitation.ts:28-48 | Writing and then reading gives the bytes back |
| Invitation.HexUnhex | packages/chat-runtime/src/orchestrator/invitation.ts:28-48 | Reading and then writing gives the 32 digits back |
| Invitation.ParsesExactly | packages/chat-runtime/src/orchestrator/invitation.ts:123-158 | Exactly which fragments are accepted and as what: in any letter case, with or without a leading hash sign, an id's digits alone or followed by a tilde and six digits |
| Invitation.PlainRoundTrip | packages/chat-runtime/src/orchestrator/invitation.ts:50-53 | A plain link gives its id back for any base URL |

## Left out

- GroupSession.GroupSession.AttachLinkTransport: a link record is a value with a serial number in the session's map, so updating one record through two references is not captured; the serial stands for the identity the code compares.
- GroupSession.GroupSession.OnLinkConnected: says what happens for any report, but claims that the link invariant is kept only if the link had no other identity before; the session attaches each orchestrator once, so none reports a second one.
- GroupSession.GroupSession.VerifyDone: does not model the callbacks to the host, which are assumed not to call back into the session, nor the group safety number, which is recomputed afterwards.
- GroupSpec.Agreement: claims nothing for a member that pinned somebody else's key on its first list.
- Handshake.Orchestrator.HandleInbound: does not model what PAKE share and confirmation messages carry, nor their own timers; a PAKE exchange is any number of awaits that ends with a secret, a failure or a bail-out, and messages may be refused at will.
- Handshake.Orchestrator.TeardownSession: does not model the zeroing of key material in place, as key pairs are values here.
- Handshake.Orchestrator.Leave: does not model the leave frame sent before the teardown.
- HandshakePeers.PeersMatch: in PAKE mode assumes that both sides hold the same PAKE secret, which the confirmation exchange is there to check.
- HandshakePeers.PeerTookPart: for peers whose key signed no list that could pass for a transcript (`Distinguished`).
- Sender.FrameSender.Sequence: models the order in which frames get numbers, not the order in which encrypted frames reach the transport, which the code does not fix.
- SenderRuns.CancelDiscipline: holds for a transfer that at most one call drives; `CancelRuns.CancelEscapesExactly` says what happens to the others.
- Receiver.FrameReceiver.DecryptResolved: decryption is an input; that only the peer can produce authentic frames is a hypothesis where it is used (`Delivery.Genuinely`).
- Delivery.FileDelivered: for a file that was not cancelled and that one call drove; what else can happen is said by `CancelRuns.CancelEscapesExactly` and `TransferRuns.DroppedNeverCompletes`.
- HandshakeConnects.GetsThrough: counts a PAKE exchange as one await, and takes the peer's two messages in the order in which it sends them.
- Broker.RoomRegistry.Join: requires at least one group seat; with none, the code stores an empty room for a refused join.
- Broker.BrokerConnection.RelayMessage: starts from parsed messages; JSON parsing and formatting are not modelled.
- BrokerRuns.PresenceTracksSeats: group rooms only; a pair room tells its first seat of a second, and the other seat of a closed connection, and nothing of an explicit leave.
- AtRest.LockSupersedes: speaks of calls begun before the lock; what later calls can do is said by `LockHoldsUnless`.
- AtRest.FinishWrap: the derivation of the key from the passphrase is a parameter.
- RateLimit.RateBound: for a clock that does not go backwards, and a key that is not evicted in the window.
- Invitation.ParseInvitation: lower-cases ASCII letters only; no other letter becomes one the grammar accepts.
- SPAKE2, Argon2, HKDF, ECDSA, AES-GCM and the curve: library calls, kept as parameters.
- Timers, clocks and randomness: steps that may happen and inputs.
- Media frames are covered by the frame codecs only.
- Conversation and message storage, the signaling client, the chat controller, the user interfaces and the native bindings.
- Fairness of the scheduler and wall-clock bounds; progress is stated step by step, and for runs that are not disturbed.
