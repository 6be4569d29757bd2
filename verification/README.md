# Verification of the Ralink frame engine driver

This project models, in Dafny, the two data paths of the Ralink frame engine driver under
`drivers/net/ethernet/ralink/`, and proves what they promise.

**The packet processing engine (PPE).** Hardware learns flows into entries of a table (the FOE table) and reports
them to the RX path. Linux authorises exact 5-tuples as flower rules. When an authorised flow is reported, the RX
path promotes the learned UNBIND entry to BIND, and from then on hardware rewrites the packets of that flow by
itself. Two descriptor generations, PPEv1 and PPEv2, share one protocol.

- `wire.dfy`, `flow.dfy`, `pedit.dfy`: words and bytes of a little-endian host; the match and action parser; the
  meaning of a rule's actions as 32-bit packet edits applied one after another, and the proof that the two-pass
  parse has that meaning.
- `topology.dfy`, `foe.dfy`, `foe_v1.dfy`, `foe_v2.dfy`, `generation.dfy`: the two descriptor formats, their
  builders and output resolution, the key read back from a descriptor, and what hardware does to a packet that
  hits a bound descriptor.
- `acceptance.dfy`, `encap.dfy`: exactly which rules are accepted and compile, what is kept of their encapsulation
  actions, and where it ends up in the descriptors' bits.
- `protocol.dfy`, `runs.dfy`: the protocol as a state machine. Its steps are hardware writes, RX checks, each lock
  section of replace, destroy, reset and flush, and the engine's halt, clear and enable. The invariant of
  `protocol.dfy` is kept by every step; `runs.dfy` states what follows for every run, however the steps
  interleave.
- `engine.dfy`: `struct ra_ppe` and its flows as objects updated in place. Each method is proved to perform steps
  of the protocol.
- `paths.dfy`, `withdrawal.dfy`: sequences of steps; when a destroyed flow's tuple is gone for good, exactly.
- `sharing.dfy`, `sample.dfy`: the run in which a tuple given under two cookies outlives the removal of one of
  them; one rule that both generations accept, and one whose edits differ from what is parsed.
- `publication.dfy`, `cos.dfy`: descriptor publication as word writes in any order; class-of-service spreading.

**The DMA rings.**

- `tx_desc.dfy`, `tx_fifo.dfy`, `tx_ring.dfy`: transmit descriptors with two segments each; the ring's meaning as
  a growing log of packets of which a prefix has been cleaned; and the 128-slot ring with its masked indices,
  updated in place, proved against that log on every path, including the unwinding of a failed mapping.
- `rx_path.dfy`: the receive path where ring and flow engine meet.
- `tx_poll.dfy`: the budgeted round-robin cleaning of up to four rings.
- `rx_ring.dfy`, `rx_poll.dfy`: page ownership of the receive ring on every path of a packet, and the two-ring
  poll.
- `vlan_cache.dfy`: the VLAN cache and the packed register file that it mirrors.

Header offsets follow section 3.1 of RFC 791, section 3.1 of RFC 9293 and RFC 768; the VLAN tag layout is section
9.6 of IEEE 802.1Q-2018.

## What is assumed of the environment

- Hardware may do anything to an entry that is not BIND except make it BIND. In a BIND entry it refreshes the
  timestamp or gives the binding up; it never changes the tuple or the rewrite fields.
- RX checks happen only while the engine runs, and each check is one step: the driver holds `ppe->lock`, and the
  slot is not relearned for another tuple between the reads of one check.
- Hash-table inserts, page allocation, mapping, padding and building a packet may fail at any call; they are
  inputs of the methods. A lookup in the tuple table may return any linked flow with the key.
- Bridge and switch lookups are an arbitrary function from the output device to what the driver learns about it;
  the VIDs it returns have twelve bits.
- Transmit calls are atomic with respect to each other. Segment lengths lie in 1..16383, and a packet has at most
  32 segments. The index that hardware reports lies between the clean index and the software index and moves
  forward; a hardware write of the DONE bit changes no other bit.

## Where the driver meets its promise, and where it does not

- Replace compares cookies only, so one tuple can be linked twice. The invariant, slot ownership, table coherence
  and the end-to-end rewrite hold nevertheless. A destroy withdraws its tuple for good if and only if no other
  flow has that tuple at the removal (`Withdrawal.WithdrawalExactly`). Uniqueness of a slot's owner, and the exact
  conditions for promotion and keepalive credit, are stated for a tuple that belongs to one flow.
- The action parser accepts a mangle whose value has bits under the mask of kept bits. The rewrite is then what
  the edits do if and only if a later mangle of the same byte or port overwrites those bits, or they cancel
  (`Pedit.ParsePreservesMeaning`, `Sample.DirtyRuleDiffers`). It also accepts a list that leaves a MAC byte
  unwritten, which the rewrite zeroes.

## Where code and comments differ

- The comment at drivers/net/ethernet/ralink/ra_ppe.h:59-60 speaks of an IPv4 tuple table; the code also keys it by IPv6
  tuples, and so does the model.
- The IPv6 builder of PPEv2 sets only a VLAN ether type, not one for PPPoE, unlike the IPv4 builder. The model
  follows the code.

## Model

| member | source | states |
|---|---|---|
| Flow.HtonsConstants | drivers/net/ethernet/ralink/ra_ppe_offload.c:161-340 | The network-order constants compared by the parser are the byte-swapped ether types and TCP flags |
| Flow.ParseActions | drivers/net/ethernet/ralink/ra_ppe_offload.c:362-521 | The two loops give the composition of two folds over the action list, or the first error met |
| Flow.Parse | drivers/net/ethernet/ralink/ra_ppe_offload.c:586-619 | The generic half of replace: chain, match, both passes and address validity, with the errors in that order |
| Acceptance.MatchAccepted | drivers/net/ethernet/ralink/ra_ppe_offload.c:161-340 | The match parser accepts exactly one-family 5-tuples under full masks, TCP with RST and FIN excluded or UDP without TCP flags, gives their key, and refuses all else as unsupported |
| Acceptance.GatherAccepted | drivers/net/ethernet/ralink/ra_ppe_offload.c:397-463 | The first pass accepts exactly the lists of supported actions in which each kind of redirect, checksum and encapsulation action occurs at most once |
| Acceptance.TranslateAccepted | drivers/net/ethernet/ralink/ra_ppe_offload.c:465-521 | The second pass accepts exactly the lists whose mangles have the supported headers, offsets and masks |
| Acceptance.RuleAccepted | drivers/net/ethernet/ralink/ra_ppe_offload.c:586-619 | A rule is accepted exactly if chain, match, hardware statistics and actions are supported and the MAC bytes last written form two unicast addresses; which of EINVAL and EOPNOTSUPP it gets otherwise |
| Acceptance.ParsedLink | drivers/net/ethernet/ralink/ra_ppe_offload.c:397-463 | An accepted rule's one VLAN push (protocol, VID, priority), its pop, its PPPoE session and its redirect are kept as given, absent ones are absent, and each MAC byte is the last one written |
| Pedit.EditOfMangle | drivers/net/ethernet/ralink/ra_ppe_offload.c:57-105 | Of an accepted Ethernet mangle, the packet edit writes exactly the bytes the parser copies, and exclusive-ors the value's bits under the mask into the bytes it keeps |
| Pedit.GatherCollectsMacs | drivers/net/ethernet/ralink/ra_ppe_offload.c:397-463 | For every accepted list, each MAC byte of the edited packet is the last one the first pass collected, or the original where none was, with the bits left under masks since then on top |
| Pedit.TranslateCarries | drivers/net/ethernet/ralink/ra_ppe_offload.c:465-521 | For every accepted list, the edited packet carries the addresses and ports of the second pass, the ports with the bits left under masks on top, and no other L3/L4 byte has changed |
| Pedit.PortStep | drivers/net/ethernet/ralink/ra_ppe_offload.c:137-159 | An accepted port mangle writes the port it names as the parser does, and exclusive-ors its other half into the other port |
| Pedit.AddressStep | drivers/net/ethernet/ralink/ra_ppe_offload.c:107-135 | An accepted IPv4 mangle has the same effect on the header as on the rewritten addresses |
| Pedit.ParsedMacs | drivers/net/ethernet/ralink/ra_ppe_offload.c:397-463 | For every packet of every accepted rule, each MAC byte ends as the parsed one where covered and as it was elsewhere, with what masks left on top |
| Pedit.ParsedTuple | drivers/net/ethernet/ralink/ra_ppe_offload.c:465-521 | For every packet of every accepted rule, addresses and ports end as the parsed ones, the ports with what masks left on top |
| Pedit.ParsePreservesMeaning | drivers/net/ethernet/ralink/ra_ppe_offload.c:362-521 | For every accepted rule, the parsed rewrite equals applying the edits one after another on every packet of the flow if and only if the mangles cover all twelve MAC bytes and no value bit under a mask survives in an address or port |
| Pedit.CleanIsSettled | drivers/net/ethernet/ralink/ra_ppe_offload.c:57-159 | In an accepted rule whose values have no bits under their masks, none survives |
| Pedit.AcceptedMatchIsExact | drivers/net/ethernet/ralink/ra_ppe_offload.c:161-340 | An accepted match selects exactly the packets that carry its 5-tuple |
| Pedit.PacketOfHits | drivers/net/ethernet/ralink/ra_ppe_offload.c:523-536 | Every key an accepted match gives is the key of some packet, with any MAC addresses |
| FoeV1.SetMac | drivers/net/ethernet/ralink/ra_ppe_v1_foe.h:140-150 | Storing an address writes its six bytes and leaves the half-word between its two parts alone |
| FoeV1.MacRoundTrip | drivers/net/ethernet/ralink/ra_ppe_v1_foe.h:140-162 | Reading an address back gives the stored one, whatever VLAN or PPPoE id is interleaved |
| FoeV1.Build | drivers/net/ethernet/ralink/ra_ppe_v1_offload.c:303-393 | The field-by-field builder fills a zeroed descriptor with exactly the words of the flow data and the output |
| FoeV1.KeyOfBuilt | drivers/net/ethernet/ralink/ra_ppe_v1_offload.c:65-83 | The key read back from a built descriptor is the key of the flow data, and the descriptor is INVALID |
| FoeV1.KeyDeterminesTuple | drivers/net/ethernet/ralink/ra_ppe_v1_offload.c:65-94 | Two entries with one key have the same tuple words |
| FoeV1.BuiltRewrites | drivers/net/ethernet/ralink/ra_ppe_v1_offload.c:303-393 | On every IPv4 packet the descriptor's rewrite of addresses, ports and both MACs is the flow data's |
| FoeV2.MacRoundTrip | drivers/net/ethernet/ralink/ra_ppe_v2_foe.h:204-226 | Reading an address back gives the stored one, whatever VLAN or PPPoE id shares its word |
| FoeV2.Ipv6ToFoe | drivers/net/ethernet/ralink/ra_ppe_v2_offload.c:79-86 | The four-word loop stores each address word in host order |
| FoeV2.Ipv6FromFoe | drivers/net/ethernet/ralink/ra_ppe_v2_offload.c:88-96 | The inverse loop gives the sixteen address bytes back |
| FoeV2.BuildIpv4 | drivers/net/ethernet/ralink/ra_ppe_v2_offload.c:393-435 | The IPv4 builder fills exactly the words of the flow data and the output |
| FoeV2.BuildIpv6 | drivers/net/ethernet/ralink/ra_ppe_v2_offload.c:437-471 | The IPv6 builder fills exactly the words of the flow data and the output |
| FoeV2.KeyOfPrepared | drivers/net/ethernet/ralink/ra_ppe_v2_offload.c:98-137 | The key read back from a prepared descriptor is the key of the flow data, for both families |
| FoeV2.ReadKey | drivers/net/ethernet/ralink/ra_ppe_v2_offload.c:98-137 | Key extraction through the address loops gives the key that the protocol uses |
| FoeV2.KeyDeterminesTuple | drivers/net/ethernet/ralink/ra_ppe_v2_offload.c:98-149 | Two entries with one key have the same format and the same tuple words |
| FoeV2.PreparedRewrites | drivers/net/ethernet/ralink/ra_ppe_v2_offload.c:393-471 | On every packet of its flow a prepared descriptor rewrites what the flow data says, for both families |
| Generation.Prepare | drivers/net/ethernet/ralink/ra_ppe_v2_offload.c:473-533 | Refuses what the generation cannot express, resolves the output, builds the template |
| Generation.Compile | drivers/net/ethernet/ralink/ra_ppe_offload.c:586-634 | From rule to template, with the first error met |
| Generation.CompiledKey | drivers/net/ethernet/ralink/ra_ppe_offload.c:523-536 | For both generations, the key under which a flow is linked is the key its template reads back as |
| Encap.PreparedExactly | drivers/net/ethernet/ralink/ra_ppe_v1_offload.c:186-428 | prepare() succeeds exactly for a family of its generation, an 802.1Q push if any, and an output that is the frame engine or a supported switch port whose tag is known |
| Encap.CompiledExactly | drivers/net/ethernet/ralink/ra_ppe_offload.c:586-634 | A rule compiles exactly if it is accepted and its data can be prepared for its device |
| Encap.Template1 | drivers/net/ethernet/ralink/ra_ppe_v1_offload.c:186-393 | PPEv1: which tag and VLAN actions, which PPPoE action and session, and which output port each combination of rule and output leaves in the descriptor's bits |
| Encap.Template2 | drivers/net/ethernet/ralink/ra_ppe_v2_offload.c:244-471 | PPEv2, both families: which tag with which priority, which session, ether type and forced port each combination of rule and output leaves in the descriptor's bits |
| Encap.CompiledEncap | drivers/net/ethernet/ralink/ra_ppe_offload.c:422-455 | For both generations, a rule's push that decides the tag is the template's tag with its VID, and its PPPoE push the template's session, or there is none |
| Encap.BoundEncap | drivers/net/ethernet/ralink/ra_ppe_v1_offload.c:303-594 | In every run, while the engine runs, a BIND slot carries the VLAN and the session that the rule of a linked flow with its tuple pushes |
| Generation.CompilePreservesMeaning | drivers/net/ethernet/ralink/ra_ppe_offload.c:362-521 | For both generations and every rule that compiles, the template rewrites every packet of the flow as the rule's edits do, if and only if the mangles cover all twelve MAC bytes and nothing survives under a mask |
| Generation.PreserveIsNoOp | drivers/net/ethernet/ralink/ra_ppe_v2_offload.c:565-590 | Storing a matching learned tuple over the template's changes no word |
| Generation.PromotedCarries | drivers/net/ethernet/ralink/ra_ppe_v1_offload.c:555-594 | A promoted entry is BIND and agrees with its template outside timestamp, TTL, state and PPEv1 VLAN priority |
| Generation.CarriedRewrite | drivers/net/ethernet/ralink/ra_ppe_v1_offload.c:116-166 | An entry that agrees with a template so far rewrites every packet as the template does |
| Cos.PrioritySevenMarksInternalTags | drivers/net/ethernet/ralink/ra_ppe_v1_offload.c:186-300 | A built template has VLAN priority 7 exactly on the switch driver's internal tags |
| Cos.SpreadTag | drivers/net/ethernet/ralink/ra_ppe_v1_offload.c:561-574 | Spreading keeps the VID, and changes the priority only from 7 |
| Cos.CosIsConfined | drivers/net/ethernet/ralink/ra_ppe_v1_offload.c:561-574 | Promotion keeps the template's VID, changes the priority of internal tags only, and while Ralink DSA is active gives them twice the low two bits of the slot, never 7 |
| Cos.CarriedVid | drivers/net/ethernet/ralink/ra_ppe_v1_offload.c:561-574 | Whatever ageing and promotion do, the VID of a bound entry is its template's |
| Cos.BoundVid | drivers/net/ethernet/ralink/ra_ppe_v1_offload.c:561-585 | In every run, while the engine runs, the VID in a BIND slot is that of its owner's template |
| Publication.Commit | drivers/net/ethernet/ralink/ra_ppe_v1_offload.c:148-166 | In whatever order the descriptor is copied, no memory the engine can observe before the last write shows BIND, and the last write makes the entry the final one |
| Publication.PublishedIb1 | drivers/net/ethernet/ralink/ra_ppe_v2_offload.c:184-205 | The published state word is BIND with the timestamp read, and the template's outside timestamp, TTL and state |
| Publication.Publish | drivers/net/ethernet/ralink/ra_ppe_v1_offload.c:579-585 | Promotion of a learned UNBIND entry, word by word: the table ends with the promoted entry, and every earlier memory stands for an entry that is not BIND |
| Publication.StagedKeepsInv | drivers/net/ethernet/ralink/ra_ppe_v1_offload.c:148-166 | Each such earlier memory is one the engine could have written itself, so the invariant holds there too |
| Protocol.HwKeepsBound | drivers/net/ethernet/ralink/ra_ppe_v1_offload.c:96-113 | A hardware write that leaves an entry BIND changes neither its key nor its rewrite |
| Protocol.OwnedAfterCheck | drivers/net/ethernet/ralink/ra_ppe_v1_offload.c:513-585 | After any RX check each BIND slot still belongs to a linked flow |
| Protocol.OwnedAfterRemove | drivers/net/ethernet/ralink/ra_ppe_v1_offload.c:430-458 | Removing one flow's association leaves every other flow's slot owned |
| Protocol.ClearedStep | drivers/net/ethernet/ralink/ra_ppe_v1.c:291-333 | Between clearing the table and enabling the engine no BIND entry appears |
| Protocol.ForgottenStep | drivers/net/ethernet/ralink/ra_ppe_offload.c:799-831 | Associations that a reset has forgotten stay forgotten until the engine runs |
| Protocol.OnlyHardwareLearns | drivers/net/ethernet/ralink/ra_ppe_v1_offload.c:168-184 | No step but a hardware write makes a slot UNBIND |
| Protocol.OnlyChecksBind | drivers/net/ethernet/ralink/ra_ppe_v1_offload.c:460-594 | No step but an accepted check of an UNBIND slot makes a slot BIND |
| Protocol.InvStep | drivers/net/ethernet/ralink/ra_ppe_v1_offload.c:430-594 | Every step of hardware, RX path and control path, shared tuples included, keeps the invariant on tables, flows, slots and engine phase |
| Runs.RunInv | drivers/net/ethernet/ralink/ra_ppe_v1_offload.c:430-594 | The invariant holds in every state of every run, whatever rules are given |
| Runs.EverySlotIsOwned | drivers/net/ethernet/ralink/ra_ppe_v1_offload.c:513-585 | In every run, while the engine runs, each BIND slot belongs to a linked flow that remembers it, and no flow has two |
| Runs.AloneInRun | drivers/net/ethernet/ralink/ra_ppe_offload.c:586-603 | A tuple that no replace has given to a second flow belongs to at most one flow, whatever is done with other tuples |
| Runs.SlotFlowAgreement | drivers/net/ethernet/ralink/ra_ppe_v1_offload.c:513-585 | If a BIND slot's tuple belongs to one flow, exactly that flow owns the slot, it owns no other, and a stale remembered slot that is BIND has another tuple |
| Runs.PromotedExactly | drivers/net/ethernet/ralink/ra_ppe_v1_offload.c:487-585 | Where the learned tuple belongs to at most one flow, a check promotes if and only if the slot is UNBIND and its tuple is that of a linked live flow that owns no slot |
| Runs.KeepaliveCreditsOwner | drivers/net/ethernet/ralink/ra_ppe_v1_offload.c:487-530 | Where the slot's tuple belongs to at most one flow, a keepalive is credited if and only if the slot's owner is alive, and it changes the owner's time of use only |
| Withdrawal.WithdrawalIsFinal | drivers/net/ethernet/ralink/ra_ppe_offload.c:636-664 | In every run, if no other flow has the tuple when a destroy removes its association, then until a later replace links the tuple no running state has a BIND slot with it |
| Withdrawal.WithdrawalExactly | drivers/net/ethernet/ralink/ra_ppe_offload.c:636-664 | No running state reachable before the next publication has the tuple bound if and only if no other flow had it at the removal |
| Withdrawal.LinkedRebinds | drivers/net/ethernet/ralink/ra_ppe_v1_offload.c:513-585 | While a flow is linked and alive, its tuple is bound or can be bound by one learned entry and one check |
| Runs.DestroySparesOthers | drivers/net/ethernet/ralink/ra_ppe_v1_offload.c:438-457 | A destroy changes only a slot that is the BIND of the destroyed flow's own tuple |
| Runs.TableCoherence | drivers/net/ethernet/ralink/ra_ppe_offload.c:538-584 | At every step the tuple table is part of the cookie table; between operations they hold the same flows |
| Runs.EndToEnd | drivers/net/ethernet/ralink/ra_ppe_v1_offload.c:303-594 | In every reachable running state, what a BIND slot does to every packet that hits it is what the edits of a linked flow's rule do, if and only if they cover both MAC addresses and leave nothing under a mask |
| Runs.LastUsedIsLastHit | drivers/net/ethernet/ralink/ra_ppe_offload.c:666-683 | In every run, the time of use reported for a flow is that of its last accepted promotion or credited keepalive since it was linked |
| Sharing.SharedTupleDefeatsWithdrawal | drivers/net/ethernet/ralink/ra_ppe_offload.c:586-603 | Every rule that compiles, given under two cookies, has a run in which a BIND slot with its tuple outlives the removal of one of them |
| Sample.SampleCompiles | drivers/net/ethernet/ralink/ra_ppe_offload.c:586-634 | One concrete UDP rule is accepted by both generations, covers both MAC addresses and leaves nothing under a mask |
| Sample.DirtyRuleDiffers | drivers/net/ethernet/ralink/ra_ppe_offload.c:57-105 | One concrete accepted rule that covers both addresses, with a value bit under a mask, parses to another rewrite than its edits on every packet of the flow |
| Engine.Ppe.LookupTuple | drivers/net/ethernet/ralink/ra_ppe_offload.c:39-45 | Finds some linked flow with the key, or there is none |
| Engine.Ppe.FoeIsBound | drivers/net/ethernet/ralink/ra_ppe_v1_offload.c:96-113 | The state is tested first, and the key read back is compared |
| Engine.Ppe.CheckEntry | drivers/net/ethernet/ralink/ra_ppe_v1_offload.c:513-585 | Keepalive credit or promotion on the flow found, as the protocol's check does it |
| Engine.Ppe.OffloadCheck | drivers/net/ethernet/ralink/ra_ppe_v1_offload.c:460-594 | One enabled check step of the protocol, with its answer |
| Engine.Ppe.RemoveAssociation | drivers/net/ethernet/ralink/ra_ppe_v1_offload.c:430-458 | The remembered slot, if it is this flow's BIND, becomes INVALID: all zero on PPEv1, only its state field cleared on PPEv2; no other slot changes, and the association is forgotten |
| Engine.Ppe.Insert | drivers/net/ethernet/ralink/ra_ppe_offload.c:538-570 | Links the flow in both tables, or leaves both as they were, with the failing table's error |
| Engine.Ppe.Replace | drivers/net/ethernet/ralink/ra_ppe_offload.c:586-634 | Succeeds exactly for a rule that compiles under a new cookie while memory and both tables last, and then the flow is in both tables with what its rule compiles to; each failure changes nothing and has its own error |
| Engine.Ppe.Destroy | drivers/net/ethernet/ralink/ra_ppe_offload.c:636-664 | Performs the four lock sections in order, or nothing for an unknown cookie; the flow leaves both tables, its own BIND slot becomes INVALID, and no other slot changes |
| Engine.Ppe.Reset | drivers/net/ethernet/ralink/ra_ppe_offload.c:799-831 | Whatever order the walk takes, afterwards every flow is as it was but remembers no slot |
| Engine.Ppe.Start | drivers/net/ethernet/ralink/ra_ppe_v1.c:301-362 | Refuses an unsupported size without change; otherwise no flow remembers a slot, every slot is zero, and the engine runs exactly if the table is addressable |
| Engine.Ppe.Stop | drivers/net/ethernet/ralink/ra_ppe_v1.c:364-382 | Halts the engine and forgets every association |
| Engine.Ppe.Flush | drivers/net/ethernet/ralink/ra_ppe_offload.c:833-865 | Empties both tables and touches no slot |
| Paths.PerformsKeepsInv | drivers/net/ethernet/ralink/ra_ppe_offload.c:586-664 | Whatever sequence of steps an operation performs keeps the invariant of the protocol |
| TxDesc.DecodeIgnoresDone | drivers/net/ethernet/ralink/ralink_fe.h:184-200 | Setting the DONE bit changes nothing that completion reads from a descriptor |
| TxDesc.PutSlot1 | drivers/net/ethernet/ralink/ralink_fe.c:962-967 | Adding the second length to a length word keeps the first one and both marks |
| TxDesc.PackRoundTrip | drivers/net/ethernet/ralink/ralink_fe.c:922-992 | Reading descriptors from a packet's first one to the first mark gives head and fragments in order; one mark is set, the packet sits on it, and half as many descriptors as segments are used, rounded up |
| TxDesc.PartialSegs | drivers/net/ethernet/ralink/ralink_fe.c:695-705 | Restoring the length word of a half-built descriptor makes exactly the mapped segments readable |
| TxFifo.AvailIsRoom | drivers/net/ethernet/ralink/ralink_fe.c:812-818 | The masked difference is the true room if and only if at most 112 descriptors are in flight |
| TxFifo.XmitKeepsInv | drivers/net/ethernet/ralink/ralink_fe.c:793-1015 | A refused, dropped or queued packet keeps the log's invariant |
| TxFifo.SendMeans | drivers/net/ethernet/ralink/ralink_fe.c:812-818 | A send is refused exactly when its descriptors do not fit into the 112, which stops the queue, and queued exactly when they fit and everything was mapped; only then are packet, mappings and bytes taken in |
| TxFifo.CleanKeepsInv | drivers/net/ethernet/ralink/ralink_fe.c:1520-1581 | A clean keeps the log's invariant, wherever it stops |
| TxFifo.ReachSpec | drivers/net/ethernet/ralink/ralink_fe.c:1536-1553 | A clean completes at most its budget, and stops short of the hardware index only with the budget used up |
| TxFifo.RefinesFifo | drivers/net/ethernet/ralink/ralink_fe.c:793-1015 | In every run the released packets are a prefix of the logged ones in order, each once; bytes reported sent are those reported completed plus those in flight |
| TxFifo.QueuedAreReleased | drivers/net/ethernet/ralink/ralink_fe.c:793-1015 | In every run the released packets are a prefix, in order, of those whose sends were answered Queued, all of them once the ring is drained, and the bytes reported sent are theirs |
| TxFifo.RingArithmetic | drivers/net/ethernet/ralink/ralink_fe.c:1569-1578 | In every run at most 112 descriptors are in flight, the masked room is exact, a stopped queue is more than 96 deep, and the first packet of at most 32 segments after a wake is not refused |
| TxFifo.MappingsConserved | drivers/net/ethernet/ralink/ralink_fe.c:499-526 | In every run the mappings in force are exactly the segments in flight, and a drained ring holds none |
| TxRings.TxRing.HwDone | drivers/net/ethernet/ralink/ralink_fe.c:1536-1540 | A hardware write of DONE in any descriptor keeps the ring valid |
| TxRings.TxRing.UnmapDesc | drivers/net/ethernet/ralink/ralink_fe.c:499-526 | Unmaps what the descriptor records, each segment once and in the way it was mapped, and only mappings in force |
| TxRings.TxRing.XmitLinear | drivers/net/ethernet/ralink/ralink_fe.c:793-870 | Queued exactly if one descriptor fits and padding and mapping succeed; then the packet with its one singly mapped segment is added, the index moves by one and the length is accounted; refusals stop the queue, drops and errors are counted, and nothing else changes |
| TxRings.TxRing.PutFrag | drivers/net/ethernet/ralink/ralink_fe.c:948-979 | A mapped fragment goes to its half of its descriptor, and the rest of the packet and everything in flight stay as they are |
| TxRings.TxRing.UnwindSg | drivers/net/ethernet/ralink/ralink_fe.c:688-713 | A failed mapping takes back exactly the segments mapped so far; indices, descriptors in flight and mappings are as before |
| TxRings.TxRing.CommitSg | drivers/net/ethernet/ralink/ralink_fe.c:981-989 | Placing the packet and writing the length words makes the new descriptors decode to the packed packet |
| TxRings.TxRing.XmitSg | drivers/net/ethernet/ralink/ralink_fe.c:872-1015 | Queued exactly if its descriptors fit and padding and every mapping succeed; then the packet with head and page fragments in order is added, the index moves by its descriptors and the length is accounted; otherwise nothing is added |
| TxRings.TxRing.CleanQ | drivers/net/ethernet/ralink/ralink_fe.c:1520-1581 | The in-place clean performs the log's clean step and accounts for it; under budget it reaches the hardware index; a stopped queue stays stopped exactly while more than 96 descriptors are in flight |
| TxPolling.TxPoller.CleanNext | drivers/net/ethernet/ralink/ralink_fe.c:1596-1607 | Cleaning one ring leaves the others alone, and under quota reaches the index read |
| TxPolling.TxPoller.Poll | drivers/net/ethernet/ralink/ralink_fe.c:1583-1632 | Terminates within budget; under budget every ring was cleaned to the index last read; two queues that always fill their quotas differ by at most 8 packets |
| RxRings.ExchangeConserves | drivers/net/ethernet/ralink/ralink_fe.c:1245-1375 | Whatever becomes of a packet, at most one page is exchanged for one page: ownership stays unique and no page is lost |
| RxRings.PagesConserved | drivers/net/ethernet/ralink/ralink_fe.c:1245-1375 | Through any sequence of packets and frees every slot holds one page, no page has two owners, and the set of pages stays the same |
| RxRings.RxRing.ConsumeOne | drivers/net/ethernet/ralink/ralink_fe.c:1245-1375 | Case by case, what is returned, which page the slot then holds, and where the old page went: up the stack without a report or after a refused bind-rate report, back to the pool otherwise, or kept without a spare; the slot is rearmed with its own page's address past the headroom |
| RxRings.ReportRoundTrip | drivers/net/ethernet/ralink/ralink_fe.c:1336-1356 | A report's reason and entry index are read from their bits in both formats, whatever the other bits are |
| RxRings.NothingReported | drivers/net/ethernet/ralink/ralink_fe.c:1332-1338 | A chip without the engine, or a v1 packet without the AIS bit, reports nothing |
| RxRings.PastHeadroom | drivers/net/ethernet/ralink/ralink_fe.c:1363-1367 | The address given to hardware is 66 bytes into the page where it fits the descriptor |
| RxRings.RxRing.Refill | drivers/net/ethernet/ralink/ralink_fe.c:578-608 | Fills every slot, or stops at the first failed allocation, with no page lost |
| RxRings.RxRing.Release | drivers/net/ethernet/ralink/ralink_fe.c:480-497 | Returns every page of the ring, filled or half filled; afterwards the pool has all that packets do not hold |
| RxPath.CheckReport | drivers/net/ethernet/ralink/ralink_fe.c:1347-1356 | A bind-rate report is accepted exactly when it makes its slot BIND; a linked live flow with the learned tuple then owns the slot, no other slot changes, and the protocol's invariant is kept |
| RxPath.Receive | drivers/net/ethernet/ralink/ralink_fe.c:1262-1361 | A packet without a report goes up the stack with its page; one reported at the bind rate is withheld if and only if it made its slot BIND, which for a tuple of one flow means that the slot was promotable; a keepalive report is always withheld |
| RxPolling.RxPoller.Poll | drivers/net/ethernet/ralink/ralink_fe.c:1430-1518 | Consumes at most budget; under budget the last pass found both rings empty; two rings that always had a packet are served within one packet of each other; publishes for each touched ring the index of its last rearmed slot |
| VlanCache.PutIsLocal | drivers/net/ethernet/ralink/ralink_fe.c:715-727 | Writing one half of a register sets its field and leaves the neighbour and the unused bits |
| VlanCache.Cache.WriteLocked | drivers/net/ethernet/ralink/ralink_fe.c:715-727 | Programming a slot changes no other slot of the register file |
| VlanCache.Cache.Alloc | drivers/net/ethernet/ralink/ralink_fe.c:729-755 | Finds or hands out a slot; the index becomes visible only after its register holds the id |
| VlanCache.Cache.Prepare | drivers/net/ethernet/ralink/ralink_fe.c:757-791 | The slot that the descriptor bits select holds the packet's VLAN id, and tagging falls to software exactly when there is no slot |
| VlanCache.Cache.DistinctSlots | drivers/net/ethernet/ralink/ralink_fe.c:729-755 | Distinct cached ids have distinct slots below 16 |
| VlanCache.InsertBitsRoundTrip | drivers/net/ethernet/ralink/ralink_fe.c:774-782 | Slot and priority are read back from the descriptor bits |

## Left out

- Probe, removal, clocks, resets, MDIO, phylink, device tree, ethtool and MAC address registers: register and bus plumbing.
- Interrupt moderation, NAPI scheduling and interrupt masking: they rest on kernel libraries.
- Register values for ageing, rates and entry limits: constants; of start and stop only the order of halting, forgetting, clearing and enabling is modelled.
- The hardware hash function: hardware chooses slots freely in the model.
- `ralink_fe_tx_ring_reset` and unmapping: a clean leaves lengths in the descriptor and the reset reads them again (drivers/net/ethernet/ralink/ralink_fe.c:1542-1552, drivers/net/ethernet/ralink/ralink_fe.c:623), so unmap-exactly-once is claimed for sends and cleans only.
- Failure of in-place VLAN insertion, and the fragment count after a reallocation: the packet lengths given to a send are those after padding and tagging.
- Doorbell batching, and races within one call between stopping a queue and cleaning it: facts about stopped queues hold between calls.
- Segment addresses are 32-bit bus addresses, as the descriptor stores them.
- The order of the writes within the PPEv1 slot clear: one step.
- TCP flags and the ingress device of a match, TTL and checksums in the hardware rewrite, and the order of VLAN push and pop: the packet semantics covers addresses, ports and both MACs.
- What hardware does with the VLAN, PPPoE and output-port fields of a descriptor: the fields themselves are specified bit by bit.
- The single-queue RX poll, receive checksum and source-port handling, and statistics of the RX rings.
- A walk of the cookie table that the hash table restarts visits flows again; forgetting twice is forgetting once.
- TxPolling.TxPoller.Poll: the hardware index moves in the model just before it is read; movement after the last read is not visible to the poll and not described.
