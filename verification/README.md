# Verified model of the LXMF propagation stack

A Dafny model of the parts of this repository whose correctness depends on state kept over long runs: the
Rust port of LXMF (`lxmf-rs`), the patched Reticulum stack below it (`reticulum-patched`), and the Python
reference (`LXMF`) where the Rust follows it. Operations that change state in place are classes and methods
with loops, each proved against a specification function; protocols are state machines over their steps, and
their theorems are about every run. `dafny verify dfyconfig.toml` checks the whole project.

| file | component |
|---|---|
| `Common.dfy`, `StableSort.dfy` | octets, digests, results; a stable sort by key |
| `Packet.dfy`, `Framing.dfy` | buffers, packet header and layout, octet stuffing, the sliding window of the TCP receiver |
| `ResourceWire.dfy`, `ResourceTransfer.dfy`, `ResourceState.dfy` | segmented resource transfer: splitting, requests, the receiver's tracker, the sender's state |
| `Stamps.dfy`, `Messages.dfy` | proof-of-work stamps on big-endian 256-bit values; the message wire format |
| `Outbound.dfy`, `Tickets.dfy`, `DeliveredCache.dfy`, `DeferredStamps.dfy` | the router's outbound queue, tickets, memory of delivered ids, and hand-off to the stamp thread |
| `StoreCulling.dfy`, `PeerRotation.dfy`, `Distribution.dfy` | the propagation node: culling, peer rotation, distribution queues |
| `PeerSync.dfy`, `SyncAnswers.dfy`, `SyncSurvival.dfy` | two-node sync: its messages and steps, what each is answered and does, and which messages survive it |
| `PythonPeer.dfy` | `LXMPeer`: offers, answers, transfers and the handled/unhandled marks |

Modelling choices. Hashes, work blocks, MessagePack and signatures are function parameters with only the facts
a proof needs: a theorem about a message assumes that the payload at hand survives MessagePack
(`Messages.Packable`, which can be met for every message: `Messages.PackableExists`), that a stored entry's
encoding is undone by its decoding (`PeerSync.FaithfulExists`), and that a key pair accepts its own signatures or,
where refusal is the point, those only (`Messages.BindingExists`). `f64` values are reals. The iteration order of
a hash table and the answer of the transport are parameters, so a theorem holds for all of them; the network is
the set of everything ever sent, from which any packet may be delivered late, repeatedly or never.

What is false of the code, and exactly when it holds:

- A resource whose parts all arrive completes iff its longest part is no longer than its part size modulo 2^32;
  otherwise it never does: `ResourceTransfer.DeliveryIffFits`.
- A hash update makes the hashes it carries known iff its first index is its segment number times its own length
  (`ResourceTransfer.UpdateKnownIff`), so a shorter last segment does not (`ResourceTransfer.SegmentPlacedIff`,
  `ResourceTransfer.LastSegmentReachesIff`).
- A packet survives serialisation, its never written access code aside, iff it has a transport address exactly
  for header type 2: `Packets.SerdeRoundTripIff`.
- Packets are received iff the stream is joined at a frame boundary; joined inside a frame, it yields nothing, ever,
  since flags are paired by position (`TcpFraming.JoinedAt`), and so does one after a frame that exceeds the window
  (`TcpFraming.FrameFitsIff`, `TcpFraming.MisalignedLosesAll`).
- A resource request survives its encoding iff it names a last map hash exactly when the map is exhausted:
  `ResourceWire.RequestRoundTrip`.
- `verify` sees the payload a message id was computed from iff the sender used the canonical value types:
  `Messages.RepackedPayloadIff`.
- A valid stamp can be worth one less than its cost: `Stamps.ValidityVersusWorth`.
- In a sync where only A offers, a message of A survives every run iff B does not list it as processed without
  storing it, or nothing that A holds or could be given by a client, and B would ask for, is taken in by B under
  its id (`SyncSurvival.OneWayKeepsIff`). If B checks no stamps, or A names messages by their unstamped data as a checking
  node does, this is about A's own entry
  (`SyncSurvival.OneWayKeepsIffAccepted`); an A that checks none facing a B that does loses messages even if B
  refuses A's entry (`SyncSurvival.OneWayOpenToChecking`, `SyncSurvival.RefusedYetLost`).
- In a sync where both nodes offer, between nodes that both check stamps or both do not, a message that its holder
  would still accept survives every run iff no node holds it alone while the other would accept it
  (`SyncSurvival.TwoWayKeepsIff`); if neither checks, iff both already store it
  (`SyncSurvival.OpenTwoWayKeepsIff`). If only one of them checks, iff that node takes no data whatever in under
  its id (`SyncSurvival.MixedKeepsIff`): what the checking node holds and accepts is lost in some run, even when
  both store it, as long as the full hash of its data is not in use for something else
  (`SyncSurvival.MixedLosesHeld`).
- A payload all of whose items are 32 bytes long is read back as an id list: `PeerSyncCodec.ResponseRoundTripIff`.
- The deferred-stamp hand-off can still pass on all deferred messages iff `handle_outbound` never missed the
  lock (`DeferredStamps.DeliverableIff`); a call of `process_deferred_stamps` beside `tick` repeats exactly the
  messages it passes on (`DeferredStamps.DirectProcessingRepeats`).
- Disjoint handled and unhandled sets stay disjoint iff no stored id is queued for both without being marked
  already: `Distribution.DisjointIff`.
- `LXMPeer.sync` computes its lowest accepted stamp value with `min(0, ...)`, so it never drops a message for
  low value: `PythonPeer.LowValueNeverApplies`. It raises when a limit is unknown: `PythonPeer.OfferSound`.
- A completed `LXMPeer` transfer marks a message handled without having sent it iff the message's file is gone:
  `PythonPeer.RoundSettlesOffer`.

The comment on `process_queues` speaks of removing handled ids from the unhandled set; the Rust store only
un-marks ids it still holds, and the model follows the code.

## Model

| member | source | states |
|---|---|---|
| `Buffers.OutputBuffer.Write` | reticulum-patched/src/buffer.rs:130-146 | a write that fits appends exactly its bytes; one that does not changes nothing and reports OutOfMemory |
| `Buffers.OutputBuffer.WriteByte` | reticulum-patched/src/buffer.rs:148-150 | appends the byte or reports OutOfMemory |
| `Buffers.InputBuffer.Read` | reticulum-patched/src/buffer.rs:219-251 | yields the next bytes and advances past them, or fails without moving |
| `Buffers.InputBuffer.ReadByte` | reticulum-patched/src/buffer.rs:234-239 | yields the next byte, or fails without moving |
| `Packets.HeaderOfMeta` | reticulum-patched/src/packet.rs:181-199 | unpacking the packed meta byte restores all five header fields |
| `Packets.MetaOfHeader` | reticulum-patched/src/packet.rs:181-199 | packing the unpacked byte restores the byte, for all 256 values |
| `Packets.MetaInjective` | reticulum-patched/src/packet.rs:181-199 | two headers share a meta byte only if their packed fields agree |
| `Packets.SerdeRoundTripIff` | reticulum-patched/src/serde.rs:29-97 | deserialising a serialised packet gives it back (without access code) iff it is well formed |
| `Packets.PacketBytes` | reticulum-patched/src/serde.rs:29-45 | at which bytes each field of a well-formed packet is |
| `Packets.PacketReadIff` | reticulum-patched/src/serde.rs:71-97 | which byte strings are rejected, panic or are read as a packet, and that one is written back unchanged iff its context byte is a known one |
| `Packets.Serialize` | reticulum-patched/src/serde.rs:29-45 | appends the packet's layout and returns the payload length; succeeds iff it fits |
| `Packets.Deserialize` | reticulum-patched/src/serde.rs:71-97 | from any offset, the field-by-field parser computes the layout's inverse, errors and panic included |
| `Hdlc.StuffConcat` | reticulum-patched/src/iface/hdlc.rs:10-28 | stuffing is a homomorphism on byte strings |
| `Hdlc.UnstuffStuff` | reticulum-patched/src/iface/hdlc.rs:62-96 | unstuffing stuffed data up to the closing flag yields the data |
| `Hdlc.FrameRoundTrip` | reticulum-patched/src/iface/hdlc.rs:10-96 | decode of encode is the identity on all byte strings |
| `Hdlc.FrameOctets` | reticulum-patched/src/iface/hdlc.rs:4-28 | a frame has 0x7e at both ends and nowhere between; what each octet becomes |
| `Hdlc.Encode` | reticulum-patched/src/iface/hdlc.rs:10-28 | appends the frame; succeeds iff it fits |
| `Hdlc.Find` | reticulum-patched/src/iface/hdlc.rs:30-60 | finds the first two flags of the buffer, or that there are fewer |
| `Hdlc.Decode` | reticulum-patched/src/iface/hdlc.rs:62-96 | the flag-driven loop computes unstuffing and fails iff there is no complete frame or no room |
| `TcpFraming.BuffersHoldEveryFrame` | reticulum-patched/src/iface/tcp_client.rs:84-96 | the frame of every packet, with every byte escaped, has at most 4168 bytes and fits the buffers |
| `TcpFraming.RunConcat` | reticulum-patched/src/iface/tcp_client.rs:113-145 | a stream can be processed in two pieces |
| `TcpFraming.ReadsJoin` | reticulum-patched/src/iface/tcp_client.rs:99-145 | how a stream is cut into reads does not matter |
| `TcpFraming.RunFrame` | reticulum-patched/src/iface/tcp_client.rs:113-145 | a frame arriving on a clean window is handed over once, and leaves it clean |
| `TcpFraming.PacketDelivered` | reticulum-patched/src/iface/tcp_client.rs:113-145 | a well-formed packet's frame yields exactly that packet |
| `TcpFraming.WireDelivers` | reticulum-patched/src/iface/tcp_client.rs:94-145 | the frames of any sequence of well-formed packets yield those packets in order |
| `TcpFraming.StreamDelivers` | reticulum-patched/src/iface/tcp_client.rs:94-195 | for every chunking of that byte stream into reads, exactly those packets in order, and a clean window at the end |
| `TcpFraming.FrameFitsIff` | reticulum-patched/src/iface/tcp_client.rs:113-145 | a frame is handed over iff it fits the window; one that does not leaves its closing flag behind as an opening one |
| `TcpFraming.MisalignedLosesAll` | reticulum-patched/src/iface/tcp_client.rs:113-145 | after such a flag every packet is lost, however many follow |
| `TcpFraming.JoinedAt` | reticulum-patched/src/iface/tcp_client.rs:94-145 | a receiver that joins the stream at any octet gets all packets to come iff that octet is at a frame boundary, and else nothing |
| `TcpFraming.Transmit` | reticulum-patched/src/iface/tcp_client.rs:169-195 | the transmit task writes the frame of the serialised packet, which always fits for well-formed ones |
| `TcpFraming.Receiver.HandleFrame` | reticulum-patched/src/iface/tcp_client.rs:120-133 | decodes and parses the frame found and passes the packet on, or nothing |
| `TcpFraming.Receiver.PushByte` | reticulum-patched/src/iface/tcp_client.rs:113-143 | one byte written, searched for and zero-filled or shifted in the array refines the abstract deframer |
| `TcpFraming.Receiver.OnRead` | reticulum-patched/src/iface/tcp_client.rs:111-145 | one read of any length refines the abstract run |
| `TcpFraming.Receiver.Serve` | reticulum-patched/src/iface/tcp_client.rs:94-145 | the read loop on the array refines the abstract reads |
| `ResourceWire.ChunksFacts` | reticulum-patched/src/resource.rs:663-697 | the parts of a split are non-empty, within the part size, and join to the data |
| `ResourceWire.ChunkCount` | reticulum-patched/src/resource.rs:663-697 | their number is the rounded-up quotient that is advertised |
| `ResourceWire.Split` | reticulum-patched/src/resource.rs:663-697 | the sender's advertisement and parts, with indices and sizes as 32-bit values |
| `ResourceWire.CutParts` | reticulum-patched/src/resource.rs:688-695 | the chunk loop numbers the parts in order |
| `ResourceWire.DecodeRequestBytes` | reticulum-patched/src/resource.rs:325-371 | the offset loop computes the request decoder, errors included |
| `ResourceWire.RequestRoundTrip` | reticulum-patched/src/resource.rs:303-371 | what a request becomes by encoding and decoding, and that it is unchanged iff it lists a last hash exactly when exhausted |
| `ResourceWire.RequestReadIff` | reticulum-patched/src/resource.rs:325-371 | which buffers are read, which error the others give, and that one is written back unchanged iff it starts with 0x00 or 0xff |
| `ResourceTransfer.CountDecides` | reticulum-patched/src/resource.rs:510-520 | the received count reaches the total iff every slot is filled |
| `ResourceTransfer.StoredFills` | reticulum-patched/src/resource.rs:498-546 | storing a part fills exactly its slot, repeats change nothing, the count stays right |
| `ResourceTransfer.CompleteIffLastMissing` | reticulum-patched/src/resource.rs:498-546 | completion is reported exactly when the last missing slot is filled |
| `ResourceTransfer.PartKeepsGenuine` | reticulum-patched/src/resource.rs:498-546 | honest parts keep every filled slot equal to the original chunk; a completion carries the original data |
| `ResourceTransfer.RunIntegrity` | reticulum-patched/src/resource.rs:463-657 | over every run with loss, repeats, reordering, cancels and timeouts, any completion of the resource carries its data |
| `ResourceTransfer.FeedCompletes` | reticulum-patched/src/resource.rs:498-546 | parts in any order with repeats complete the assembly exactly at the arrival that reaches the last slot |
| `ResourceTransfer.CrossedOnce` | reticulum-patched/src/resource.rs:498-546 | and they do so exactly once, with the whole data |
| `ResourceTransfer.RunCompletesWithLast` | reticulum-patched/src/resource.rs:463-657 | in every run with other traffic, hash updates and polls that do not give it up, the resource is reported complete once if the arrived parts fill every slot and not before |
| `ResourceTransfer.DeliveryIffFits` | reticulum-patched/src/resource.rs:463-546 | an accepted resource whose parts all arrive completes exactly once iff its longest part is no longer than its part size modulo 2^32 |
| `ResourceTransfer.WrappedNeverCompletes` | reticulum-patched/src/resource.rs:498-546 | when the longest part is longer than the part size modulo 2^32, nothing ever completes |
| `ResourceTransfer.WrappedSizeExample` | reticulum-patched/src/resource.rs:663-697 | one byte sent with part size 2^32 is accepted by every receiver and does not complete |
| `ResourceTransfer.AnswerCoversMissing` | reticulum-patched/src/resource.rs:776-791 | the sender's answer to a request contains every missing part, even when map hashes collide |
| `ResourceTransfer.TimeoutAsks` | reticulum-patched/src/resource.rs:589-657 | a timeout with retries left keeps the assembly and yields one non-failed timeout, its hash list complete and not marked exhausted |
| `ResourceTransfer.AnswerCompletes` | reticulum-patched/src/resource.rs:776-791 | delivering that answer completes the assembly once |
| `ResourceTransfer.RecoveryRound` | reticulum-patched/src/resource.rs:589-657 | timeout, encoded and decoded request, answer and delivery complete any resource in one loss-free round |
| `ResourceTransfer.PollReportsIff` | reticulum-patched/src/resource.rs:597-603 | a poll reports a live assembly iff nothing was heard of it for the timeout, and else changes nothing |
| `ResourceTransfer.PollReport` | reticulum-patched/src/resource.rs:605-650 | it asks once more while fewer than three retries were spent, restarting the wait, and then reports the failure and drops the assembly |
| `ResourceTransfer.TimeoutTells` | reticulum-patched/src/resource.rs:604-645 | a timeout names the hashes of exactly the missing parts whose hash is known, whether another is missing, and the known hash of highest index |
| `ResourceTransfer.AttendedNeverTimesOut` | reticulum-patched/src/resource.rs:463-657 | over every run, a resource of which a part, a hash update or an advertisement is taken less than the timeout before each poll never times out |
| `ResourceTransfer.StarvedFails` | reticulum-patched/src/resource.rs:589-657 | of a resource nothing more is heard of, the polls that find the timeout over ask up to three times in all, the next gives it up, and no other poll reports it |
| `ResourceTransfer.CacheRemembers` | reticulum-patched/src/utils/cache_set.rs:20-39 | the cache of finished resources holds 256 and forgets only its oldest, only when full and given a new one |
| `ResourceTransfer.StoredTeaches` | reticulum-patched/src/resource.rs:498-546 | a part gives its slot a hash if it had none and keeps the retries; no other slot changes |
| `ResourceTransfer.AnsweredIff` | reticulum-patched/src/resource.rs:776-791 | a part is in the answer iff the request is for this resource and names its hash |
| `ResourceTransfer.WholeUpdateGivesFullMap` | reticulum-patched/src/resource.rs:548-574 | one update carrying the whole map gives the receiver every part's hash |
| `ResourceTransfer.PlacedUpdatesGiveFullMap` | reticulum-patched/src/resource.rs:548-574 | updates placed right that together cover the map, in any order and with repeats, give the full map |
| `ResourceTransfer.UpdateKnownIff` | reticulum-patched/src/resource.rs:548-574 | on the receiver's map: an update makes its hashes known, where they were not, iff its first index is its segment number times its length |
| `ResourceTransfer.SegmentPlacedIff` | reticulum-patched/src/resource.rs:548-574 | so behind segments of m hashes, one of r hashes is placed right iff it is the first or r = m |
| `ResourceTransfer.LastSegmentReachesIff` | reticulum-patched/src/resource.rs:548-574 | a last segment reaches the entry of the last part iff it is the only one or as long as the others |
| `ResourceTransfer.StepBalanced` | reticulum-patched/src/resource.rs:463-657 | every event keeps what was accepted, what is live and what was reported in balance |
| `ResourceTransfer.RunBalanced` | reticulum-patched/src/resource.rs:589-657 | over every run each acceptance ends in at most one way (replaced, completed, cancelled, failed) and sees at most max_retries non-failed timeouts |
| `ResourceState.ResourceTracker.HandleAdvertisement` | reticulum-patched/src/resource.rs:463-496 | the tracker object performs the advertisement step |
| `ResourceState.ResourceTracker.HandlePart` | reticulum-patched/src/resource.rs:498-546 | the tracker object performs the part step, joining the slots on completion |
| `ResourceState.ResourceTracker.HandleHashUpdate` | reticulum-patched/src/resource.rs:548-574 | the tracker object writes the update's hashes at its segment |
| `ResourceState.ResourceTracker.HandleCancel` | reticulum-patched/src/resource.rs:576-587 | the tracker object drops the assembly and reports it |
| `ResourceState.ResourceTracker.PollTimeouts` | reticulum-patched/src/resource.rs:589-657 | the tracker object polls all assemblies in some order, as the specification does one by one |
| `ResourceState.ReleaseBudget` | reticulum-patched/src/resource.rs:793-806 | over every run a send state releases its parts through polling at most max_retries times |
| `ResourceState.RetryIff` | reticulum-patched/src/resource.rs:793-806 | a poll releases the parts iff the timeout is over and a retry is left, gives up iff it is over and none is, and else changes nothing |
| `ResourceState.ReleasedThenFailed` | reticulum-patched/src/resource.rs:793-806 | polled the timeout after each release, a send state is released max_retries times and then fails |
| `ResourceState.ResourceSendState.HandleRequest` | reticulum-patched/src/resource.rs:776-791 | the send state returns the parts whose map hash was requested |
| `ResourceState.ResourceSendState.PollRetry` | reticulum-patched/src/resource.rs:793-806 | the send state performs the retry step |
| `BigEndian.FirstDifferenceDecides` | lxmf-rs/src/message.rs:557-575 | the first differing byte decides the order of big-endian numbers |
| `BigEndian.ZeroBitsCharacterised` | lxmf-rs/src/message.rs:524-541 | n leading zero bits means the value lies in the n-th dyadic interval |
| `Stamps.StampValid` | lxmf-rs/src/message.rs:543-576 | the byte loop decides hash <= 2^(256-cost) for every cost from 1 to 256 and its edge cases |
| `Stamps.StampValue` | lxmf-rs/src/message.rs:524-541 | the byte loop counts the leading zero bits |
| `Stamps.PythonStampValue` | LXMF/LXStamper.py:33-42 | the reference's shift loop counts the same bits for every non-zero hash |
| `Stamps.PythonStampValidAgrees` | LXMF/LXStamper.py:44-48 | the reference's integer comparison agrees with the byte loop |
| `Stamps.ValidityVersusWorth` | lxmf-rs/src/message.rs:524-576 | valid iff worth at least the cost or the hash is exactly 2^(256-cost) |
| `Stamps.BoundVersusZeroBits` | lxmf-rs/src/message.rs:524-576 | the numeric bound in terms of leading zero bits |
| `Stamps.CostAntitone` | lxmf-rs/src/message.rs:543-576 | a stamp valid for a cost is valid for every lower cost |
| `Stamps.ValidatePnStamp` | lxmf-rs/src/message.rs:634-653 | accepts iff long enough and valid, splits off the stamp, and returns a value of at least cost - 1 |
| `Messages.WireRoundTrip` | lxmf-rs/src/message.rs:115-222 | decoding the wire form recovers every field, the stamp, the signature and the id, and verify accepts it if the key signed it |
| `Messages.TamperedIff` | lxmf-rs/src/message.rs:214-222 | a signature made for one body is accepted on a message with another body, and any stamp, iff the bodies are equal |
| `Messages.ForgedRejected` | lxmf-rs/src/message.rs:214-222 | a message whose signature the key rejects for its own signed part is refused |
| `Messages.BindingExists` | lxmf-rs/src/message.rs:214-222 | a packing and a key pair that meet the hypotheses of TamperedIff exist for any two bodies |
| `Messages.PayloadReadIff` | lxmf-rs/src/message.rs:147-212 | a payload is read iff it has a time, title, content, fields and at most a text as stamp; what is read, and which error it is otherwise |
| `Messages.PackableExists` | lxmf-rs/src/message.rs:271-286 | the hypothesis of the round trips can be met for every message and every stamp |
| `Messages.StampLeavesIdentity` | lxmf-rs/src/message.rs:271-286 | adding, changing or removing the stamp changes neither id nor signed part |
| `Messages.RepackedPayloadIff` | lxmf-rs/src/message.rs:147-212 | the payload that verify packs again equals the one the id was computed from iff the sender used the canonical value types |
| `Messages.GenerateStamp` | lxmf-rs/src/message.rs:578-614 | the first valid candidate of the random source is returned with its value, or none of the allowed number is valid |
| `Messages.LXMessage.EnsureStamp` | lxmf-rs/src/message.rs:288-320 | an existing stamp stays; else the ticket's stamp; else the first valid stamp for the cost with its value and flags, or none if no candidate that is tried is valid |
| `Messages.LXMessage.EncodeSigned` | lxmf-rs/src/message.rs:115-130 | never fails; respects deferral; sets id and signature; what it returns decodes to this message, stamp, signature and id, and verifies |
| `Messages.LXMessage.EncodeWithSignature` | lxmf-rs/src/message.rs:132-145 | fails iff there is no signature; what it returns decodes to this body, stamp, signature and message id |
| `Messages.LXMessage.ValidateStamp` | lxmf-rs/src/message.rs:224-269 | verdict and value as specified, tickets first |
| `Messages.StampedMessageAccepted` | lxmf-rs/src/rns/router.rs:3982-4001 | a message stamped by ticket or by work passes the receiving router's check |
| `Messages.AcceptedIff` | lxmf-rs/src/rns/router.rs:3982-4001 | the receiving router accepts exactly a stamp made from one of its 16-byte tickets or one that meets the cost |
| `Outbound.EnqueueKeeps` | lxmf-rs/src/rns/router.rs:3664-3678 | enqueueing keeps the invariant and issues an id never used before |
| `Outbound.NextKeeps` | lxmf-rs/src/rns/router.rs:3843-3910 | one attempt, whatever the transport answers, keeps the invariant |
| `Outbound.MovesKeep` | lxmf-rs/src/rns/router.rs:3721-3756 | marking in flight, delivered or failed keeps the invariant |
| `Outbound.StepKeeps` | lxmf-rs/src/rns/router.rs:3664-3910 | every call keeps it |
| `Outbound.RunKeeps` | lxmf-rs/src/rns/router.rs:3664-3910 | over every run each issued id is in exactly one of queued, handed out, in flight, delivered, failed; the persisted ids are the queue's |
| `Outbound.AttemptsBounded` | lxmf-rs/src/rns/router.rs:3843-3910 | an item that next_delivery_with_retry gives up on was attempted at least once and at most max(1, max_attempts) times |
| `Outbound.NextShrinks` | lxmf-rs/src/rns/router.rs:3843-3910 | every attempt on a due head lowers the measure of remaining attempts |
| `Outbound.AttemptDecides` | lxmf-rs/src/rns/router.rs:3843-3910 | after an attempt the item is handed out iff it succeeded, queued and persisted iff it met an error other than a policy violation with attempts left, and else failed |
| `Outbound.ViolationNotRetried` | lxmf-rs/src/rns/router.rs:3869-3885 | a policy violation leaves the item neither queued nor persisted but failed |
| `Outbound.RetryScheduled` | lxmf-rs/src/rns/router.rs:3887-3891 | a retried item goes last, one attempt older, due at now + min(max_delay, base * 2^min(attempts - 1, 20)) with both saturations |
| `Outbound.UntouchedBefore` | lxmf-rs/src/rns/router.rs:3843-3852 | no sequence of calls before an item's time touches it |
| `Outbound.NothingIffNotDue` | lxmf-rs/src/rns/router.rs:3843-3852 | a call answers nothing, and changes nothing, iff the queue is empty or its head is not due |
| `Outbound.CallsKeep` | lxmf-rs/src/rns/router.rs:355-367 | a drain keeps the invariant |
| `Outbound.RnsRouter.EnqueueMessage` | lxmf-rs/src/rns/router.rs:3664-3678 | the router object performs the enqueue step and returns the new id |
| `Outbound.RnsRouter.NextDeliveryWithRetry` | lxmf-rs/src/rns/router.rs:3843-3910 | the router object performs the attempt step |
| `Outbound.RnsRouter.MarkInflightDelivery` | lxmf-rs/src/rns/router.rs:3721-3731 | the delivery moves from handed out to in flight |
| `Outbound.RnsRouter.MarkDeliveredDelivery` | lxmf-rs/src/rns/router.rs:3733-3738 | the delivery leaves the table as delivered, or nothing happens |
| `Outbound.RnsRouter.MarkFailedDelivery` | lxmf-rs/src/rns/router.rs:3740-3756 | the delivery leaves the table as failed, or nothing happens |
| `Outbound.RnsRouter.PollTimeouts` | lxmf-rs/src/rns/router.rs:3758-3772 | exactly the expired deliveries fail, in the order of the table, and are returned with attempt count 0 |
| `Outbound.RnsRouter.Drain` | lxmf-rs/src/rns/router.rs:355-367 | the loop of tick ends for every sequence of outcomes within the measure, with the queue empty or its head not due |
| `Tickets.IssuedHasTimeLeft` | lxmf-rs/src/rns/router.rs:440-478 | every ticket reused has more than the renewal period left, and so has a new one issued for longer |
| `Tickets.StepKeepsInvariant` | lxmf-rs/src/rns/router.rs:440-525 | every call keeps tickets of one destination at least expiry minus renewal apart |
| `Tickets.RunKeepsInvariant` | lxmf-rs/src/rns/router.rs:440-525 | so does every run under a monotone clock |
| `Tickets.Packing` | lxmf-rs/src/constants.rs:42-45 | at most k points that far apart fit in k such intervals |
| `Tickets.TicketBounds` | lxmf-rs/src/rns/router.rs:440-525 | from an empty store at most three tickets are valid, and at most four survive a cleanup |
| `Tickets.RefusedIff` | lxmf-rs/src/rns/router.rs:440-453 | a ticket is refused iff one was delivered to the destination less than 24 hours ago |
| `Tickets.RenewedIff` | lxmf-rs/src/rns/router.rs:455-477 | a new ticket is made iff none has more than fourteen days left; else one of those is given again and nothing changes |
| `Tickets.CleanedIff` | lxmf-rs/src/rns/router.rs:519-525 | a cleanup keeps exactly the unexpired outbound tickets and the inbound ones up to five days past expiry |
| `Tickets.TicketStore.GenerateTicket` | lxmf-rs/src/rns/router.rs:440-478 | refuses within the interval, else reuses or issues for the given lifetime as specified |
| `Tickets.TicketStore.GetInboundTickets` | lxmf-rs/src/rns/router.rs:494-512 | exactly the unexpired tickets, or None if there are none |
| `DeliveredCaches.HistoryInvariant` | lxmf-rs/src/rns/router.rs:203-233 | over every run the remembered ids are distinct and repeats are more than the capacity apart |
| `DeliveredCaches.DeliveredCache.SeenBefore` | lxmf-rs/src/rns/router.rs:212-214 | true iff the id is among the last max_entries accepted |
| `DeliveredCaches.DeliveredCache.MarkDelivered` | lxmf-rs/src/rns/router.rs:216-228 | queue and set stay equal to the recent history; true iff newly accepted |
| `DeliveredCaches.DeliveredCache.Len` | lxmf-rs/src/rns/router.rs:230-232 | the number of remembered ids, at most max_entries |
| `DeferredStamps.MainKeeps` | lxmf-rs/src/rns/router.rs:3322-3391 | every step of the main thread keeps mutual exclusion, one worker, and the order of messages |
| `DeferredStamps.WorkerKeeps` | lxmf-rs/src/rns/router.rs:3375-3387 | every step of the worker keeps them |
| `DeferredStamps.RunKeeps` | lxmf-rs/src/rns/router.rs:3322-3391 | so does every interleaving |
| `DeferredStamps.ExactlyOnceInOrder` | lxmf-rs/src/rns/router.rs:1547-1554 | each message that obtained the lock reaches the router queue once and in order; the local queue is channel, worker and shared queue |
| `DeferredStamps.AllDelivered` | lxmf-rs/src/rns/router.rs:3322-3391 | from every such state the threads can pass on every message that reached the shared queue |
| `DeferredStamps.TicksSuffice` | lxmf-rs/src/rns/router.rs:3322-3391 | every schedule with a stated number of ticks that find both threads at rest, among any others, passes them all on |
| `DeferredStamps.ExamplesReachable` | lxmf-rs/src/rns/router.rs:3322-3391 | the states of the two counterexamples arise |
| `DeferredStamps.FailedLockLosesMessage` | lxmf-rs/src/rns/router.rs:1551-1554 | a message whose try_lock failed is never passed on in any continuation, unless an equal one is deferred |
| `DeferredStamps.DeliverableIff` | lxmf-rs/src/rns/router.rs:1547-1554 | all deferred messages can still be passed on iff no try_lock has failed |
| `DeferredStamps.RunDeliverableIff` | lxmf-rs/src/rns/router.rs:1547-1554 | the same for the end of every run of the program |
| `DeferredStamps.DirectProcessingRepeats` | lxmf-rs/src/rns/router.rs:1500-1511 | after a direct call from any state the threads pass on the whole old local queue again, so each message arrives once iff the call passed none on |
| `StoreCulling.CulledPrefix` | lxmf-rs/src/rns/router.rs:1818-1869 | removing the heaviest first leaves at most the limit, removes nothing lighter than what stays, and stops at the first moment it fits |
| `StoreCulling.StaleIff` | lxmf-rs/src/rns/router.rs:1801-1816 | an entry is stale iff its time is missing, not positive or more than thirty days ago |
| `StoreCulling.PrioritisedStaysLonger` | lxmf-rs/src/rns/router.rs:1818-1869 | of two entries alike in size and time, the prioritised one is culled only with the other |
| `StoreCulling.YoungerStaysLonger` | lxmf-rs/src/rns/router.rs:1818-1869 | of two alike in priority and size, one older than four days, the younger is culled only with the older |
| `StoreCulling.SmallerStaysLonger` | lxmf-rs/src/rns/router.rs:1818-1869 | of two alike in priority and at most four days old, the smaller is culled only with the larger |
| `StoreCulling.PropagationNode.RemoveStale` | lxmf-rs/src/rns/router.rs:1801-1816 | exactly the expired and undated entries go, and are counted |
| `StoreCulling.PropagationNode.Cull` | lxmf-rs/src/rns/router.rs:1818-1869 | culls as specified whatever the table order |
| `StoreCulling.PropagationNode.CleanPropagationStore` | lxmf-rs/src/rns/router.rs:1801-1869 | no expired entry remains, the total is within the limit, and nothing was evicted without need |
| `PeerRotation.RotationSound` | lxmf-rs/src/rns/router.rs:2918-3039 | a rotation leaves more than one peer and at least the maximum less headroom, drops only rates below one half, and none above a survivor of the pool |
| `PeerRotation.PoolEligible` | lxmf-rs/src/rns/router.rs:2967-3004 | the pool holds no static and no busy peer |
| `PeerRotation.PoolIff` | lxmf-rs/src/rns/router.rs:2951-3022 | who is in the pool, in terms of state, static list, unhandled count, last contact and offers |
| `PeerRotation.LowIff` | lxmf-rs/src/rns/router.rs:3023-3035 | a rate is low iff nothing was offered or fewer than half of the offered messages were wanted |
| `PeerRotation.DueIff` | lxmf-rs/src/rns/router.rs:2918-2950 | a rotation is due iff 1 < maximum - headroom < number of peers and fewer peers than the headroom are untried |
| `PeerRotation.RotatingRouter.CollectPool` | lxmf-rs/src/rns/router.rs:2951-3022 | collects exactly the pool, each peer with its rate |
| `PeerRotation.RotatingRouter.DropRows` | lxmf-rs/src/rns/router.rs:3023-3035 | drops the rows with low rates among the first ones |
| `PeerRotation.RotatingRouter.RotatePeers` | lxmf-rs/src/rns/router.rs:2918-3039 | does nothing unless due, else a sound and exhaustive rotation that touches no static or busy peer |
| `Distribution.DisjointIff` | lxmf-rs/src/rns/peer.rs:394-420 | disjoint sets stay disjoint iff no stored id is queued for both without being marked |
| `Distribution.QueuedIsMarked` | lxmf-rs/src/rns/peer.rs:394-420 | every queued stored id ends up handled or unhandled |
| `Distribution.ProcessHandled` | lxmf-rs/src/rns/peer.rs:395-411 | the first loop adds the queued stored ids to handled and removes them from unhandled |
| `Distribution.ProcessUnhandled` | lxmf-rs/src/rns/peer.rs:413-419 | the second loop adds the queued stored ids that were in neither set |
| `Distribution.ProcessQueues` | lxmf-rs/src/rns/peer.rs:394-420 | both set equations, with the marks of all other peers unchanged |
| `Distribution.FanOutMembers` | lxmf-rs/src/rns/router.rs:3047-3071 | each queued id goes to every peer but its source |
| `Distribution.DistributionRouter.FlushPeerDistributionQueue` | lxmf-rs/src/rns/router.rs:3047-3071 | empties the queue into the peers' queues in order |
| `Distribution.DistributionRouter.FlushQueues` | lxmf-rs/src/rns/router.rs:3073-3092 | with at least one peer all queues end empty and the marks are those of the set equations |
| `Distribution.FlushReachesEveryPeer` | lxmf-rs/src/rns/router.rs:3047-3092 | each queued stored id is handled or unhandled for every peer other than its source |
| `PeerSyncCodec.RequestRoundTrip` | lxmf-rs/src/rns/peer.rs:820-938 | decode of encode is the identity on sync requests |
| `PeerSyncCodec.ResponseRoundTripIff` | lxmf-rs/src/rns/peer.rs:940-999 | and on responses, except a payload whose items all have 32 bytes, which reads as an id list |
| `PeerSync.AckHonestIff` | lxmf-rs/src/rns/router.rs:2800-2863 | all acknowledged ids are stored iff no accepted item names an id processed and no longer stored |
| `PeerSync.ClientSafe` | lxmf-rs/src/rns/router.rs:1911-1980 | a client's message keeps the one-way invariant |
| `PeerSync.RequestSafe` | lxmf-rs/src/rns/router.rs:2306-2330 | handling any request in flight keeps it |
| `PeerSync.ResponseSafe` | lxmf-rs/src/rns/router.rs:2434-2470 | handling any response in flight keeps it |
| `PeerSync.StepSafe` | lxmf-rs/src/rns/router.rs:2306-2470 | every action but an offer by B keeps it |
| `PeerSync.OneWayLosesNothing` | lxmf-rs/src/rns/router.rs:2683-2885 | in every one-way run acks name only ids B stores or had dropped before, and no other message A held is absent from both stores |
| `PeerSync.WantsMembers` | lxmf-rs/src/rns/router.rs:2689-2699 | exactly the offered ids that are not stored are wanted |
| `SyncAnswers.InvalidKeyRefused` | lxmf-rs/src/rns/router.rs:2701-2710 | an offer with a wrong peering key leaves both nodes as they were and adds one packet, the reply with error 0xf3 |
| `SyncAnswers.KeylessRun` | lxmf-rs/src/rns/router.rs:2306-2330 | in every run in which all offers reach B with wrong keys, B queues and asks for nothing, stores only what it had and what its clients brought, and A loses nothing |
| `SyncAnswers.OfferAnswer` | lxmf-rs/src/rns/router.rs:2683-2755 | with a good key the answer is false iff all offered ids are stored; else it lists those that are not, in the order of the offer, and a request for just these is queued |
| `SyncAnswers.ListAnswer` | lxmf-rs/src/rns/router.rs:2757-2798 | the answer to a request for the list holds exactly the stored ids, each once |
| `SyncAnswers.GetAnswer` | lxmf-rs/src/rns/router.rs:2757-2798 | the answer to a request for messages holds exactly the wanted stored entries, or at most the limit's bytes of them, and changes nothing |
| `SyncAnswers.LeftOutForRoom` | lxmf-rs/src/rns/router.rs:2757-2798 | a wanted stored entry is left out only if it would not fit beside what is sent |
| `SyncAnswers.AckAnswer` | lxmf-rs/src/rns/router.rs:2865-2885 | an acknowledgement removes exactly the acknowledged copies, and is answered by true |
| `SyncAnswers.ResponseIgnored` | lxmf-rs/src/rns/router.rs:2434-2470 | a response nobody waits for changes nothing; one to an offer or an acknowledgement only ends the wait |
| `SyncAnswers.ClientOnce` | lxmf-rs/src/rns/router.rs:1911-1980 | data taken in once is not taken in again, even after its copy was acknowledged away |
| `PeerSync.PayloadMembers` | lxmf-rs/src/rns/router.rs:2757-2798 | without a limit the payload holds exactly the wanted stored entries |
| `PeerSync.PayloadWithinLimit` | lxmf-rs/src/rns/router.rs:2757-2798 | with a limit its bytes never exceed it |
| `PeerSync.ItemApplied` | lxmf-rs/src/rns/router.rs:2800-2863 | an entry taken in as x is acknowledged as x, and stored unless x was stored or processed before |
| `PeerSync.Exchange` | lxmf-rs/src/rns/router.rs:2306-2885 | six steps of offer, get, payload and ack take x, the id under which the other node takes in what is offered, from the one store, and put it into the other unless it was processed there |
| `SyncSurvival.OneWayKeepsIff` | lxmf-rs/src/rns/router.rs:2683-2885 | for all stamp policies: a message survives every one-way run iff it is not both processed without being stored at B and threatened by something B would take in under its id |
| `SyncSurvival.OneWayKeepsIffAccepted` | lxmf-rs/src/rns/router.rs:2683-2885 | if B checks no stamps or A names messages by their unstamped data: iff B does not both accept A's entry and list it as processed without storing it |
| `SyncSurvival.OneWayOpenToChecking` | lxmf-rs/src/rns/router.rs:1911-1980 | if A checks no stamps and B does, and a good stamp for the message is at hand: iff B does not list it as processed without storing it |
| `SyncSurvival.RefusedYetLost` | lxmf-rs/src/rns/router.rs:2833-2878 | a message whose entry is too short for B is lost all the same |
| `SyncSurvival.TwoWayKeepsIff` | lxmf-rs/src/rns/router.rs:2833-2878 | between nodes that both check stamps or both do not, a message its holder would still accept survives every run iff no node holds it alone while the other would accept it |
| `SyncSurvival.OpenTwoWayKeepsIff` | lxmf-rs/src/rns/router.rs:2833-2878 | between nodes that check no stamps, iff both already store it |
| `SyncSurvival.LoseFrom` | lxmf-rs/src/rns/router.rs:2306-2885 | otherwise at most three exchanges, eighteen steps, lose it |
| `SyncSurvival.MixedKeepsIff` | lxmf-rs/src/rns/router.rs:2800-2885 | between a node that checks stamps and one that does not, when no full hash in question is otherwise in use: iff the checking node takes no data in under its id |
| `SyncSurvival.MixedLosesHeld` | lxmf-rs/src/rns/router.rs:2800-2885 | a message the checking node holds and accepts is lost in some run, even if both store it, when the full hash of its data is not otherwise in use |
| `SyncSurvival.MixedLosesStamped` | lxmf-rs/src/rns/router.rs:2800-2885 | so is one that the other node holds, if it is the hash of data with a good stamp at hand |
| `PeerSync.RunAuthentic` | lxmf-rs/src/rns/router.rs:1911-1980 | in every run, both directions included, what is stored under an id is content the id names |
| `PeerSync.SyncNode.Wanted` | lxmf-rs/src/rns/router.rs:2689-2699 | the filter loop computes the wanted ids |
| `PeerSync.SyncNode.PayloadOf` | lxmf-rs/src/rns/router.rs:2757-2798 | the loop computes the payload, skipping what exceeds the limit |
| `PeerSync.SyncNode.TakePayload` | lxmf-rs/src/rns/router.rs:2800-2863 | the loop takes the items in and collects the ids to acknowledge |
| `PeerSync.SyncNode.DropDelivered` | lxmf-rs/src/rns/router.rs:2865-2885 | the acknowledged copies go and no others |
| `PeerSync.SyncNode.HandleRequestFrom` | lxmf-rs/src/rns/router.rs:2306-2330 | the node performs the two-node model's request step |
| `PeerSync.SyncNode.HandleResponseTo` | lxmf-rs/src/rns/router.rs:2434-2470 | the node performs the two-node model's response step |
| `PythonPeer.OfferSound` | LXMF/LXMPeer.py:338-381 | a non-empty offer has 24 + sum(size + 16) below the sync limit and each size + 16 within the transfer limit, names eligible entries only, and omits one only if it would reach the limit |
| `PythonPeer.OfferPrefersLight` | LXMF/LXMPeer.py:358-379 | an omitted entry had no room behind entries that weigh no more |
| `PythonPeer.PrioritisedPrecedes` | LXMF/LXMRouter.py:1005-1016 | of two eligible entries alike in size and time of receipt, the one for a prioritised destination comes first in the offer, and the other is offered only behind it |
| `PythonPeer.YoungerPrecedes` | LXMF/LXMRouter.py:1005-1016 | so does the younger of two alike in priority and size, if one is older than four days |
| `PythonPeer.SmallerPrecedes` | LXMF/LXMRouter.py:1005-1016 | so does the smaller of two alike in priority and at most four days old |
| `PythonPeer.LoadInBytes` | LXMF/LXMPeer.py:363-376 | what is compared with the sync limit is 24 bytes, the sizes, and 16 more for each message |
| `PythonPeer.SyncDecides` | LXMF/LXMPeer.py:309-386 | when a sync sends an offer, starts a link, raises, or does nothing |
| `PythonPeer.BuildEffect` | LXMF/LXMPeer.py:338-379 | building an offer moves exactly the oversize entries to handled and un-marks exactly the low-value ones; other peers' marks stay |
| `PythonPeer.EntryFate` | LXMF/LXMPeer.py:358-379 | an unhandled entry is given up as handled iff size + 16 exceeds the transfer limit; else it stays unhandled, and is offered unless it would bring the total to the sync limit |
| `PythonPeer.LowValueNeverApplies` | LXMF/LXMPeer.py:331-340 | with non-negative stamp values no entry is ever of low value |
| `PythonPeer.AnsweredMarks` | LXMF/LXMPeer.py:396-486 | what each answer to an offer does to each mark |
| `PythonPeer.FinishedMarks` | LXMF/LXMPeer.py:488-528 | what the end of a transfer does to each mark |
| `PythonPeer.ProcessMarks` | LXMF/LXMPeer.py:553-568 | what processing the queues does to each mark |
| `PythonPeer.StepMarks` | LXMF/LXMPeer.py:267-570 | an entry stops being unhandled exactly for one of the listed reasons, all but removal and low value leaving it handled, and starts exactly when its queued id is processed |
| `PythonPeer.NothingForgotten` | LXMF/LXMPeer.py:267-570 | over every run a stored unhandled entry stays unhandled or becomes handled for one of these reasons; handled ones stay handled |
| `PythonPeer.FailedTransfer` | LXMF/LXMPeer.py:522-528 | a failed transfer changes no mark and the next sync can start |
| `PythonPeer.AnswerStartsTransfer` | LXMF/LXMPeer.py:448-470 | the answer of a router lists exactly the offered entries it lacks, in order, sends those that have a file, or ends the sync |
| `PythonPeer.AnswerSplitsOffer` | LXMF/LXMRouter.py:2167-2175 | exactly the offered entries the other router holds become handled |
| `PythonPeer.RoundSettlesOffer` | LXMF/LXMPeer.py:396-520 | after an undisturbed round every offered entry is handled; it was neither held nor sent iff the other side lacks it and its file is gone |
| `PythonPeer.UnstartedResource` | LXMF/LXMPeer.py:448-486 | when the resource cannot be started, what the other side lacks stays unhandled |
| `PythonPeer.SentOfferOutstanding` | LXMF/LXMPeer.py:363-386 | what an offer names is stored and unhandled when it is sent |
| `PythonPeer.LxmPeer.Sift` | LXMF/LXMPeer.py:338-348 | the first loop separates low-value entries from the rest, in table order |
| `PythonPeer.LxmPeer.Select` | LXMF/LXMPeer.py:363-379 | the last loop accumulates the offer and moves the oversize entries |
| `PythonPeer.LxmPeer.StartSync` | LXMF/LXMPeer.py:309-386 | the peer object performs the sync step, exceptions included |
| `PythonPeer.LxmPeer.Answer` | LXMF/LXMPeer.py:396-486 | the peer object performs the answer step |
| `PythonPeer.LxmPeer.Conclude` | LXMF/LXMPeer.py:488-528 | the peer object performs the end of a transfer |
| `PythonPeer.LxmPeer.EmptyQueues` | LXMF/LXMPeer.py:553-568 | the peer object empties both queues from the right, deciding by the marks found at the start |
| `PythonPeer.LxmPeer.AddHandledMessage` | LXMF/LXMPeer.py:607-611 | adds the mark once, for stored entries only |
| `PythonPeer.LxmPeer.RemoveUnhandledMessage` | LXMF/LXMPeer.py:625-629 | removes the first occurrence, for stored entries only |

## Left out

- Sockets, tasks, connection handling, the interface manager and Kaonic gRPC: only the framing loops of `tcp_client.rs` are modelled.
- SHA-256, HKDF, Ed25519, X25519 and the Fernet tokens: function parameters with the facts named above.
- The bytes of MessagePack: messages are value trees, and that the library restores the tree at hand is an assumption.
- Files, configuration, command line, statistics and logging of `lxmd` and `lxmd-rs`.
- Rounding of floating-point numbers, random numbers and the running time of the stamp search.
- `RnsRouter::next_delivery`, `restore_outbound`, the raw setters and restoring from snapshots: they would break the invariants by design.
- Overflow of the 64-bit message id counter, the duplicate records kept by the in-memory message store, and the delivery mode of a queued message.
- Resources with 2^32 parts or more, and the answers of `transport.rs` to a request with an exhausted hash map.
- SyncSurvival.OneWayKeepsIff: assumes that A does not store, under the hash of data a client could still send it, something else that B lacks; this cannot matter when B checks no stamps or A names its messages by their unstamped data.
- SyncSurvival.TwoWayKeepsIff: assumes that a holder would still accept what it holds; when a node has raised its cost above a message it stores, the message's fate depends on stamps yet to be found.
- SyncSurvival.MixedKeepsIff: assumes the same of the checking node, and that neither node already stores something else under the full hash of data it takes in as the message in question (as a message stamped twice would be); the losing half needs this only of the data it uses.
- Ticket spacing for lifetimes other than TICKET_EXPIRY, which is the only one any caller passes.
- The cast of the peer count to 32 bits in `rotate_peers`.
- Peer back-off and sync states in `peer.rs`, links, requests, packet caches, path tables and propagation-node directories: simple table updates.
- The counters, back-off times and reachability checks of `LXMPeer.sync`; the checks appear as one condition that may be true or false at every call.
- Expiry and culling during a two-node sync: the theorems are about runs without them.
