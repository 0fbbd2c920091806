# Trusted data space kernel: a verified model

The system connects *connectors* through *kernels*. A channel is proposed, gathers one approval per
participant, becomes active, carries packets over one or several kernels, changes its participant lists by
approved request, and closes. Every node keeps hash and signature chains about what passed through it.
This project models that behaviour in Dafny and proves what it guarantees, and, where a guarantee does not
hold, exactly when it does.

| file | what it is about |
|---|---|
| `Wrappers.dfy` | values that may be missing |
| `Names.dfy` | participant names: bare, or qualified by a kernel |
| `Negotiation.dfy` | proposing, accepting, rejecting and closing a channel on one kernel |
| `CrossKernel.dfy`, `CrossKernelExact.dfy`, `CrossKernelReject.dfy`, `CrossKernelNotices.dfy` | negotiation between kernels over a network that delays, repeats, reorders and loses messages |
| `Routes.dfy` | multi-hop routes: validation, next hop, previous hop |
| `Delivery.dfy`, `DeliveryExact.dfy`, `DeliveryRuns.dfy` | PushData, buffering, subscribing, distributing, and delivery over time |
| `AckPath.dfy` | the way back of an acknowledgement |
| `Roles.dfy`, `RolesExact.dfy`, `RolesRuns.dfy` | changes of the sender and receiver lists |
| `BusinessChain.dfy`, `ChainHistory.dfy` | the chain of data and ACK rows on one node |
| `PathChain.dfy`, `PathChainProofs.dfy`, `PathChainTheorems.dfy`, `PathChainProgress.dfy` | the chains of all nodes of a path |
| `Evidence.dfy`, `EvidenceProofs.dfy`, `EvidenceQueries.dfy` | the audit log |
| `PacketCodec.dfy` | peer packets and their framing |
| `FileTransfer.dfy`, `FileTransferRuns.dfy` | chunked files |

Objects that the program updates in place are classes, its loops are loops, and each method is proved
against a function of the state before it. Whole runs are sequences of steps over those functions.

**What is assumed.** SHA-256 is a function value: non-empty where that matters, and free of collisions on
the inputs that occur in the statement. RSA-PSS signatures are randomised, so a signature is a parameter;
where a chain depends on telling signatures apart, a step is possible only with a new one. Clocks, fresh
identifiers, the answers of callbacks and whether a queue had room are parameters. Methods are atomic steps.

**Where the code falls short of what its comments say.** Each is stated with the condition under which the
promise does hold.
- Safety of cross-kernel negotiation fails when the origin kernel hosts a participant besides the creator and
  some participant is elsewhere (`SafeExactlyWhenOriginMaySpeak`).
- When a remote kernel cannot be reached, the origin's attempt to withdraw the proposal is always refused
  (`WithdrawalIsRefused`).
- No participant can reject a cross-kernel channel (`NobodyCanReject`); on one kernel a rejection needs the
  literally listed name (`RejectionAppliesAndIsFinal`).
- A closed channel is reopened by a participant's accept (`ClosedChannelReopens`).
- A packet held for an online receiver without a subscription is not forwarded to other kernels
  (`BroadcastForwardsExactly`).
- A directed packet whose target is qualified with the receiving kernel itself is neither buffered nor held, so
  the target gets it only if it is subscribed (`OwnKernelTargetIsNotKept`).
- An ACK is never kept: a sender that is not subscribed when it is distributed does not get it
  (`AckDeliveredExactly`).
- A packet is lost for a subscriber that leaves while it is only in the queue and is not back in time
  (`StepLosesExactly`, `LeavingWhileQueuedLoses`).
- Buffers of absent connectors are shared by all channels of a kernel: a connector that restarts and subscribes
  to another channel first loses what waited for it here (`SubscribingElsewhereFirstLoses`,
  `BroadcastTakenElsewhere`), and is sent it there or not at all (`ForeignPacketReplayed`).
- Copies of a channel on different kernels may decide the same request differently
  (`CopiesMayDecideDifferently`).
- A subscription without the restart mark leaves the connector's own buffer unread (`RecoverySendsExactly`).
- With two senders, the packets of the later one are acknowledged to the earlier one
  (`AddresseeIsSenderExactly`), possibly at the later one's kernel (`TargetIsOneSenderExactly`).
- A directed packet with several targets on one far kernel keeps only the first on a relay
  (`RelayKeepsFirstName`).
- An ACK issued at the origin misses a sender that the channel lists with its kernel (`AimsAtSender`).
- A valid route that passes a kernel twice before it first reaches the target loops
  (`SingleRouteArrivesExactly`).
- Sender and receiver lists stay disjoint as strings, not as connectors (`OneConnectorGetsBothRoles`,
  `ApprovalKeepsConnectorsApart`); an approved removal may take nothing out or empty the list
  (`RemovalTakesEffectExactly`, `ListCanBecomeEmpty`), or leave a name that was added twice
  (`ApprovalDuplicatesExactly`, `RemovalLeavesConnectorListed`).
- The tail hash of a chain fixes the history only among histories of equal length (`SameTailExactly`).
- Kernels record a repeated ACK again once it lies beyond the first 100 rows (`LateAckRecordedAgain`,
  `LateAckIsDoubled`).
- Kernels beyond the first do not record empty payloads, while the first does
  (`InStepExactlyWithoutEmptyPayloads`).
- A bar inside a field of an audit record can move to the next field unnoticed
  (`BarsShift`, `RenderingIsUniqueExactly`); flow,
  metadata and signature are not hashed (`UncoveredFieldsUnprotected`).
- A chunk delivered twice makes a file transfer fail (`FileArrivesExactly`), and the part before the missing
  chunk stays on disk under the file's name (`PutTogetherExactly`, `FilesAreVouchedFor`).

## Model

| member | source | states |
|---|---|---|
| Names.QualifySplits | kernel/circulation/channel_manager.go:1448-1453 | Splitting `kernel:connector` at the first colon undoes joining. |
| Names.BareOfQualified | kernel/circulation/channel_manager.go:1127-1138 | Cutting at the last colon gives back the connector. |
| Names.PrefixOfQualified | kernel/server/channel_service.go:1758-1768 | The prefix test of an ACCEPTED notice picks exactly the names hosted by that kernel. |
| Names.SuffixOfQualified | kernel/circulation/channel_manager.go:550-561 | The suffix test of the creator's own approval picks exactly that connector's names. |
| Names.ForeignLearned | kernel/circulation/channel_manager.go:2550-2566 | After learning a list, a connector is known at a kernel exactly when the list has it there or, not listed elsewhere, it was known there before. |
| Names.RemoteLearned | kernel/circulation/channel_manager.go:3051-3079 | After learning a whole list, a connector is known at the kernel of the last name the list has for it, and one the list does not have is known as before. |
| Negotiation.ScanNames | kernel/circulation/channel_manager.go:511-530 | A proposal's names pass exactly when none is empty and none occurs twice, within and across the two lists. |
| Negotiation.StartApprovals | kernel/circulation/channel_manager.go:540-561 | One entry per name, set exactly for the creator's own. |
| Negotiation.ChannelManager.ProposeChannel | kernel/circulation/channel_manager.go:497-600 | Succeeds exactly on valid proposals, adds one proposed channel, changes nothing otherwise. |
| Negotiation.ChannelManager.CreateChannelWithID | kernel/circulation/channel_manager.go:245-330 | A placeholder under a given id, refused for an existing id and for missing parts. |
| Negotiation.AcceptedNames | kernel/circulation/channel_manager.go:629-665 | The keys tried for an accepter: as given, bare, under its recorded kernel, and for a bare name under this kernel. |
| Negotiation.Channel.SetApprovals | kernel/circulation/channel_manager.go:667-683 | Sets exactly the candidate keys that are entries; reports whether there was one. |
| Negotiation.Channel.Ready | kernel/circulation/channel_manager.go:685-744 | The manager's activation test. |
| Negotiation.ChannelManager.AcceptChannelProposal | kernel/circulation/channel_manager.go:603-757 | The whole new state of a channel after an accept, with every refusal. |
| Negotiation.ChannelManager.RejectChannelProposal | kernel/circulation/channel_manager.go:760-812 | The new state after a rejection, with every refusal. |
| Negotiation.ChannelManager.CloseChannel | kernel/circulation/channel_manager.go:1242-1271 | The new state after closing, refused when closed already. |
| Negotiation.HandleAccept | kernel/server/channel_service.go:550-702 | The service's guard against rejected proposals, the accept, and when activation is announced. |
| Negotiation.CandidateSharesBareName | kernel/circulation/channel_manager.go:629-665 | Every key tried for an accepter has the accepter's bare name. |
| Negotiation.ActivationTestsAgree | kernel/server/channel_service.go:639-702 | The manager's test, the service's recheck and "all approvals are set" agree on consistent channels. |
| Negotiation.AcceptActivatesExactly | kernel/circulation/channel_manager.go:603-757 | After a successful accept the channel is active exactly when all approvals are set, exactly when the service's recheck reports it. |
| Negotiation.AcceptSetsOnlyOwnEntries | kernel/circulation/channel_manager.go:629-683 | An accept sets only entries with the accepter's bare name and takes none back. |
| Negotiation.ProposalIsConsistent | kernel/circulation/channel_manager.go:497-600 | A validated proposal starts with approval keys that match its lists. |
| Negotiation.RunKeepsConsistent | kernel/circulation/channel_manager.go:603-812 | Any sequence of accepts, rejections and closings keeps keys and lists matched. |
| Negotiation.ApprovalsComeFromAccepts | kernel/circulation/channel_manager.go:603-812 | After any sequence an entry is set exactly when it was set at the start or some accept in the sequence counted for it; approvals never revert. |
| Negotiation.RejectionAppliesAndIsFinal | kernel/circulation/channel_manager.go:760-812 | On one kernel a rejection applies exactly when the channel is proposed, in time, and the rejecter is listed by the very name it gives; then no later accept, rejection or closing changes the channel. |
| Negotiation.ClosedChannelReopens | kernel/circulation/channel_manager.go:603-757 | A closed, unrejected channel becomes active again exactly when an accept completes the approvals. |
| Negotiation.ProposalStartsWith | kernel/circulation/channel_manager.go:532-600 | A new proposal has the lists given, is proposed and pending, and is approved exactly for the creator: under its bare name and under whatever kernel. |
| Negotiation.AcceptSpeaksFor | kernel/circulation/channel_manager.go:629-665 | Which names an accept as `x` or as `k:x` speaks for, spelled out. |
| Negotiation.AcceptExactly | kernel/circulation/channel_manager.go:603-757 | An accept succeeds exactly when the proposal was not rejected and the channel is active, or the accepter speaks for a listed name in time; it then sets the listed names spoken for, activates exactly if none is left open, and changes nothing else. |
| Negotiation.ClosedStaysWithoutAccepts | kernel/circulation/channel_manager.go:1242-1271 | Closing applies to every channel that is not closed, changes the status alone, and holds through every run without accepts. |
| CrossKernel.NegotiationIsSafe | kernel/server/kernel_service.go:574-749 | In every run, whatever is delayed, repeated, reordered or lost, no kernel's copy is active unless every participant is the creator or has itself accepted, on a copy that was not active yet and without being refused, provided the origin hosts no participant but the creator or hosts them all. |
| CrossKernel.ProposeOk | kernel/server/kernel_service.go:574-749 | The origin's proposal, its notices and its ACCEPTED messages keep the invariant. |
| CrossKernel.AcceptOk | kernel/server/channel_service.go:550-906 | A local or forwarded accept, its forwarded copies and its activation notices keep the invariant. |
| CrossKernel.RefusedStepIsInert | kernel/server/channel_service.go:550-702 | An accept that the kernel refuses changes no copy and sends nothing. |
| CrossKernel.NoticeOnCopyOk | kernel/server/channel_service.go:1588-2192 | A PROPOSED, ACCEPTED or REJECTED notice on an existing copy keeps the invariant. |
| CrossKernel.NoticeOnNothingOk | kernel/server/channel_service.go:1640-1830 | A notice that makes a kernel create its copy from the sender's information keeps the invariant. |
| CrossKernelNotices.NoticeApprovesExactly | kernel/server/channel_service.go:2118-2165 | After any notice a listed name is approved exactly when it was before, or the copy was proposed, the notice says ACCEPTED and the name is hosted by its sender. |
| CrossKernelNotices.NoticeActivatesExactly | kernel/server/channel_service.go:2118-2165 | The copy is active afterwards exactly when it was before, or the notice counted and all entries are then set. |
| CrossKernelNotices.ActivationSpreads | kernel/server/channel_service.go:2037-2165 | After an accept that leaves its kernel's copy active, delivering the notice it sends to a kernel whose proposed copy lacks only names hosted by the first activates that copy too. |
| CrossKernelNotices.AcceptSpreads | kernel/server/channel_service.go:550-906 | A served accept approves the connector's name at its own kernel, is forwarded to every other kernel, approves the name there when delivered in time, and is not forwarded again. |
| CrossKernelNotices.ActivationTells | kernel/server/channel_service.go:702-795 | When a copy is completed, the kernel of every participant hosted elsewhere is told, and that of a creator who is not listed. |
| CrossKernelNotices.NoticeIsPassedOn | kernel/server/channel_service.go:2118-2192 | A notice that activates a copy is passed on to the kernel of every participant hosted elsewhere. |
| CrossKernelNotices.NoticeIsAnswered | kernel/server/channel_service.go:2213-2244 | Whoever a notice was for is answered with the state of the copy at the kernel where it is known to be. |
| CrossKernelNotices.PlaceholderExactly | kernel/server/channel_service.go:1640-1830 | A copy built on a notice has the sender's lists, and approvals exactly for the creator and, on ACCEPTED, for the names hosted by the sender; it is active exactly if these are all. |
| CrossKernelNotices.ProposalExactly | kernel/server/kernel_service.go:574-749 | A valid request leaves one proposed copy, its names written `kernel:connector`, and ACCEPTED notices to exactly the reached participants named at another kernel. |
| CrossKernelNotices.RejectionIsTold | kernel/server/channel_service.go:909-975 | A rejection in time by a listed name closes the copy, and the recorded kernels of the creator and the senders are told. |
| CrossKernelNotices.CloseIsLocal | kernel/server/channel_service.go:1342-1390 | A participant closes its own kernel's copy; no other copy changes and nothing is sent. |
| CrossKernelReject.NobodyCanReject | kernel/server/channel_service.go:909-975 | In every run, whoever tries, no copy is ever rejected, no notice ever says so, and a connector's rejection changes nothing: copies list qualified names and the rejecter gives its bare one. |
| CrossKernel.RunOk | kernel/server/channel_service.go:550-906 | Every reachable state of all kernels and all messages satisfies the inductive invariant. |
| CrossKernelExact.SafeExactlyWhenOriginMaySpeak | kernel/server/kernel_service.go:715-749 | All runs are safe if and only if the request is invalid, or the origin hosts no participant but the creator, or it hosts them all; otherwise an unsafe run is constructed. |
| CrossKernelExact.UnsafeRunActivates | kernel/server/kernel_service.go:715-749 | The constructed run ends with an active copy although no connector at the origin accepted. |
| CrossKernelExact.InvalidProposalIsInert | kernel/circulation/channel_manager.go:497-530 | A request that fails validation leaves no copy and no message in any run. |
| CrossKernelExact.WithdrawalIsRefused | kernel/server/kernel_service.go:675-745 | The withdrawal in the creator's bare name never applies. |
| Routes.MultiHopConfigManager.ValidateConfig | kernel/server/multi_hop_config.go:302-337 | Accepts exactly the routes with a name, hops numbered from one, ports from 1 to 65535 and each hop starting where the one before ends, if that is named; an error points at the first bad hop and says what is wrong with it. |
| Routes.ValidMeansContiguous | kernel/server/multi_hop_config.go:302-337 | A valid route is contiguous exactly where no inner destination is left empty. |
| Routes.FindUseful | kernel/server/multi_hop_config.go:387-427 | The first hop that leaves the kernel and from which the route reaches the target, or that there is none. |
| Routes.MultiHopConfigManager.GetNextHop | kernel/server/multi_hop_config.go:387-427 | The answer is one that some enabled route allows; not found only if no enabled route helps. |
| Routes.MultiHopConfigManager.GetPreviousHop | kernel/server/multi_hop_config.go:432-457 | The hop before the first arrival on some enabled route; not found for a first hop's destination. |
| Routes.NextHopGoesOn | kernel/server/multi_hop_config.go:387-427 | Whichever route is picked, the kernel reached is the target or has a next hop itself. |
| Routes.ForwardingArrives | kernel/server/multi_hop_config.go:387-427 | With contiguous enabled routes that rise in some order, every walk is bounded, and it can go no further exactly when it has arrived. |
| Routes.NextFollowsPath | kernel/server/multi_hop_config.go:387-427 | On a single route of distinct kernels the next hop is exactly the next kernel. |
| Routes.NextAnswersExactly | kernel/server/multi_hop_config.go:387-427 | There the whole answer is the kernel, address and port of the hop that leaves, its number counted from one and the length of the route. |
| Routes.NoStepBack | kernel/server/multi_hop_config.go:387-427 | On such a route no next hop leads back. |
| Routes.PrevFollowsPath | kernel/server/multi_hop_config.go:432-457 | On such a route the previous hop is exactly the kernel before, with address and port of the hop that led there, and the first hop's destination has none. |
| Routes.PrevOnAnyRoute | kernel/server/multi_hop_config.go:432-457 | On any single route, however often it passes a kernel, the way back is by the hop before the first arrival, with its address and port; none for the first hop's destination and for a kernel that is not reached. |
| Routes.NextOnAnyRoute | kernel/server/multi_hop_config.go:387-427 | On any single route the next hop is the first that leaves the kernel and has the target at its end or later. |
| Routes.SingleRouteArrivesExactly | kernel/server/multi_hop_config.go:387-427 | Along a single enabled contiguous route, from its start to a kernel it reaches, all walks are bounded if and only if the kernels before the first arrival are pairwise distinct; then they follow the path and stop exactly at the target, otherwise there are walks of every length that never get there. |
| Routes.ValidRouteMayLoop | kernel/server/multi_hop_config.go:302-337 | Validation accepts a route of the second kind. |
| Delivery.Connectors.BufferDataForOfflineConnector | kernel/circulation/channel_manager.go:2128-2157 | Appends a copy, dropping the oldest of 1000. |
| Delivery.Connectors.GetBufferedDataForConnector | kernel/circulation/channel_manager.go:2160-2171 | Returns the buffer and empties it, leaving the others. |
| Delivery.BufferIsLatestWindow | kernel/circulation/channel_manager.go:2128-2171 | After any history a buffer is the last min(n, 1000) of the n packets kept since the last drain, in order, whatever other connectors do. |
| Delivery.ScanRole | kernel/circulation/channel_manager.go:1127-1226 | CanSend, CanReceive and IsSender hold exactly for listed bare names. |
| Delivery.FindTurn | kernel/circulation/channel_manager.go:1403-1437 | Whether and where an ACK is routed back. |
| Delivery.SortTargets | kernel/circulation/channel_manager.go:1455-1486 | Directed targets: remote ones by kernel, local ones, absent ones. |
| Delivery.SortReceivers | kernel/circulation/channel_manager.go:1487-1574 | Broadcast receivers: remote ones by kernel, absent local ones. |
| Delivery.AddSenderKernels | kernel/circulation/channel_manager.go:1576-1608 | Control messages also go to the kernels of the senders. |
| Delivery.SortOut | kernel/circulation/channel_manager.go:1403-1610 | All of the sorting, and whether there is no valid target. |
| Delivery.ShouldHold | kernel/circulation/channel_manager.go:1619-1662 | Whether some receiver is online here without a subscription. |
| Delivery.ForwardAll | kernel/circulation/channel_manager.go:1698-1789 | What is sent to which next hop for every target kernel. |
| Delivery.Channel.PushData | kernel/circulation/channel_manager.go:1317-1793 | Result, queue, channel buffer, offline buffers, flow id and forwards for every packet and state, with every refusal. |
| Delivery.Channel.ShouldSend | kernel/circulation/channel_manager.go:1859-1931 | Who is sent a packet: not its sender, business data only to pure receivers, and only addressees. |
| Delivery.Channel.Subscribe | kernel/circulation/channel_manager.go:1796-1856 | Refusals; otherwise the channel's and the connector's kept packets are replayed in order through that test and the connector's buffer is drained. |
| Delivery.Channel.SubscribeWithRecovery | kernel/circulation/channel_manager.go:2006-2055 | The same without the refusals; the connector's buffer only on a restart. |
| Delivery.Channel.DistributeNext | kernel/circulation/channel_manager.go:1945-1974 | The head of the queue goes to exactly the subscribers that pass the test. |
| Delivery.NoSilentLocalLoss | kernel/circulation/channel_manager.go:1478-1696 | After a successful broadcast every local receiver is subscribed with the packet queued, away with the packet last in its buffer, or idle with the packet in the channel's buffer. |
| Delivery.LocalReceiverIsSent | kernel/circulation/channel_manager.go:1859-1931 | From any of the three places a local receiver is sent the packet exactly when it is not also a sender. |
| Delivery.BroadcastForwardsExactly | kernel/circulation/channel_manager.go:1668-1789 | A successful broadcast is sent, unchanged, to exactly the other kernels hosting a receiver, unless it was held, when none is sent it. |
| Delivery.RelayKeepsFirstName | kernel/circulation/channel_manager.go:1745-1775 | A relay passes on the first of several names for one kernel; nothing is dropped exactly when there was one. |
| DeliveryExact.CopiesKeepContent | kernel/circulation/channel_manager.go:2128-2157 | A kept copy keeps every field but the message type and the ACK marks, and two packets have equal copies exactly when they agree on those. |
| DeliveryExact.PushVerdictExactly | kernel/circulation/channel_manager.go:1317-1696 | For every packet but an ACK: exactly when it is refused and why, when it is queued, and when it is held, with the limit of 10000. |
| DeliveryExact.MustHoldExactly | kernel/circulation/channel_manager.go:1605-1662 | Held is exactly what some receiver misses who is online here without a subscription. |
| DeliveryExact.BufferedForExactly | kernel/circulation/channel_manager.go:1455-1617 | A packet is buffered for exactly its local addressees that are neither subscribed nor online: of a broadcast the receivers placed here, of a directed packet the bare targets that are listed receivers. |
| DeliveryExact.NoSilentDirectedLoss | kernel/circulation/channel_manager.go:1455-1696 | After a successful directed push every bare target listed as a receiver is subscribed with the packet queued, away with the packet last in its buffer, or idle with the packet held. |
| DeliveryExact.OwnKernelTargetIsNotKept | kernel/circulation/channel_manager.go:1455-1486 | For a target qualified with this very kernel nothing is buffered, held or sent on. |
| DeliveryExact.DirectedForwardsExactly | kernel/circulation/channel_manager.go:1698-1789 | A directed packet that is not held is sent to exactly the other kernels its targets name, by the next hop where there is one, with the connectors named there. |
| DeliveryExact.ControlForwardsExactly | kernel/circulation/channel_manager.go:1562-1608 | A control broadcast that is not held is sent, unchanged, to exactly the other kernels that host a receiver or a sender. |
| DeliveryExact.AckTurnsBackExactly | kernel/circulation/channel_manager.go:1403-1453 | With a previous hop, an ACK with a target on another kernel goes to that hop alone, with the first such target alone, and is not queued or buffered; it is held like any packet. |
| DeliveryExact.AckElseExactly | kernel/circulation/channel_manager.go:1455-1789 | Any other ACK with targets is queued, buffered, held and sent on like a directed packet, except that its bare targets need not be listed. |
| DeliveryExact.DirectedSentExactly | kernel/circulation/channel_manager.go:1859-1931 | A directed data packet is sent to a subscriber exactly when it is a receiver, no sender, not the packet's own sender, and some target is its name, bare or qualified. |
| DeliveryExact.ReplayInOrder | kernel/circulation/channel_manager.go:1820-1856 | Replaying goes through the kept packets in order. |
| DeliveryRuns.StepLosesExactly | kernel/circulation/channel_manager.go:1317-2171 | A packet that waits for a connector or was sent to it stays so exactly unless the step hands out its only copy from the queue while the connector is not subscribed, or is a push on this or another channel that drops its only copies from the connector's full buffer, or a subscription of the connector on another channel that takes its only copies with that buffer. |
| DeliveryRuns.PresentExactly | kernel/circulation/channel_manager.go:1796-2171 | The same over any run of pushes, distributions, subscriptions, unsubscriptions, connectors coming and going, and steps of other channels on the shared buffers: if the packet is not brought again it is still there exactly when no step lost it. |
| DeliveryRuns.BroadcastReachesExactly | kernel/circulation/channel_manager.go:1478-1974 | After a successful broadcast and any such run, a local receiver that is not a sender, once subscribed, with the queue worked off and its own buffer empty, has been sent the packet exactly when no step lost it. |
| DeliveryRuns.DirectedReachesExactly | kernel/circulation/channel_manager.go:1455-1974 | The same for a directed packet and any bare target that is listed as a receiver and not as a sender. |
| DeliveryRuns.LeavingWhileQueuedLoses | kernel/circulation/channel_manager.go:1934-1974 | A subscriber that leaves while a packet is only in the queue has lost it when the queue is worked off before it is back. |
| DeliveryRuns.OtherChannelSteps | kernel/circulation/channel_manager.go:2128-2171 | Whatever happens on another channel of the kernel is, for this one, a sequence of steps that fill or empty connectors' buffers. |
| DeliveryRuns.SubscribingElsewhereFirstLoses | kernel/circulation/channel_manager.go:2006-2055 | A packet waiting only in a connector's own buffer is lost for good when the connector, restarting, subscribes to another channel before this one. |
| DeliveryRuns.BroadcastTakenElsewhere | kernel/circulation/channel_manager.go:1478-2055 | The run from the broadcast on: accepted, buffered for the absent receiver, taken elsewhere, and not sent here although the receiver is subscribed and nothing is left. |
| DeliveryRuns.ForeignPacketReplayed | kernel/circulation/channel_manager.go:1859-2055 | The other channel sends the foreign packet exactly when the connector is there a receiver and no sender and did not send it; else it is dropped. |
| DeliveryRuns.RecoverySendsExactly | kernel/circulation/channel_manager.go:2006-2055 | What waits for an unsubscribed connector is sent on recovery exactly when it is a restart or the channel's own buffer holds a copy. |
| AckPath.FindAddressee | kernel/server/channel_service.go:1432-1446 | The first listed sender that is not the acknowledging connector. |
| AckPath.AddresseeIsSenderExactly | kernel/server/channel_service.go:1432-1446 | An ACK is addressed to whichever sender sent the data exactly when there is no second sender. |
| AckPath.GetOriginKernelID | kernel/circulation/channel_manager.go:452-462 | The kernel of the first sender listed with one. |
| AckPath.NoOriginExactly | kernel/circulation/channel_manager.go:452-462 | No kernel is addressed exactly when the channel lists no sender with one. |
| AckPath.TargetIsOneSenderExactly | kernel/server/channel_service.go:1432-1455 | The kernel and the connector an ACK is addressed to belong to one sender exactly when that connector is listed with its kernel and no qualified entry of the acknowledging connector on another kernel comes first. |
| AckPath.AckFollowsPrevious | kernel/circulation/channel_manager.go:1403-1476 | Two or more hops from the origin an ACK goes, unchanged, to the previous hop and to nobody else, and is not queued. |
| AckPath.AckFallsBack | kernel/circulation/channel_manager.go:1455-1789 | One hop from the origin the directed-target branch sends it to the origin; at the origin nothing is sent on. |
| AckPath.AckRetracesRoute | kernel/circulation/channel_manager.go:1403-1789 | With a single enabled contiguous route of distinct kernels, an ACK issued at position j visits exactly the reversed path and stops at the origin after j forwards, whatever the look-ups answer. |
| AckPath.AckDeliveredExactly | kernel/circulation/channel_manager.go:1455-1974 | An ACK addressed to this kernel, or to no kernel, is not kept; only in the second case is it sent on, to the kernel "". The addressee is sent it if and only if somebody was subscribed when it came, the addressee is subscribed when it is distributed, did not issue it, and is aimed at. |
| AckPath.AimsAtSender | kernel/server/channel_service.go:1518-1539 | An ACK that came back aims at the original sender; one issued at the origin does exactly when the channel lists the sender by its bare name. |
| AckPath.LookupsAnswer | kernel/server/multi_hop_config.go:387-457 | At every kernel of the route the two look-ups have an allowed answer. |
| Roles.Channel.RequestChannelSubscription | kernel/circulation/channel_manager.go:2225-2265 | Files a pending request, with every refusal. |
| Roles.Channel.ApproveChannelSubscription | kernel/circulation/channel_manager.go:2268-2370 | Lists and decision after a subscription approval, with every refusal. |
| Roles.Channel.RejectChannelSubscription | kernel/circulation/channel_manager.go:2373-2401 | Marks the first request of that id, if pending. |
| Roles.Channel.RequestPermissionChange | kernel/circulation/channel_manager.go:2408-2487 | Files a pending request, with every refusal. |
| Roles.Channel.ApprovePermissionChange | kernel/circulation/channel_manager.go:2490-2640 | Lists, remote map and decision after a permission approval, with every refusal. |
| Roles.Channel.RejectPermissionChange | kernel/circulation/channel_manager.go:2727-2766 | Marks the first request of that id, if pending. |
| Roles.Channel.StorePermissionRequestFromRemote | kernel/circulation/channel_manager.go:2793-2837 | Files a request of another kernel unless its id is known or it would mix roles. |
| Roles.Channel.HandleChannelUpdate | kernel/circulation/channel_manager.go:3037-3079 | Takes over the lists, a given status and the kernels of the listed names. |
| RolesExact.AnnouncedListsAreTaken | kernel/circulation/channel_manager.go:2960-3079 | When a kernel announces its lists and, after any steps on any copies, another takes that announcement, its lists are exactly the announced ones; a given status is taken over, an absent one leaves the status; every qualified connector is known at its kernel, and no other copy changes. |
| RolesExact.ChangeFiledExactly | kernel/circulation/channel_manager.go:2408-2487 | A participant's request is filed exactly when the channel is active and it adds a connector without a role or removes a listed one from a list of at least two entries; else nothing changes. |
| RolesExact.LastStays | kernel/circulation/channel_manager.go:2454-2465 | The last sender and the last receiver cannot be asked away. |
| RolesExact.SubscriptionFiledExactly | kernel/circulation/channel_manager.go:2225-2265 | An outsider's request is filed exactly when the channel is active, it asks for a role, and the outsider neither takes part nor waits already. |
| RolesExact.StoredExactly | kernel/circulation/channel_manager.go:2793-2837 | A request from another kernel is stored, as pending, exactly when its id is new and it gives no listed connector the other role. |
| RolesExact.NamesWrittenOut | kernel/circulation/channel_manager.go:2291-2327 | Which name an approval adds or takes away, by how requester and target are written. |
| RolesExact.SubscriptionApprovedExactly | kernel/circulation/channel_manager.go:2268-2370 | A subscription is approved exactly when a participant approves an open request for a role whose name is in neither list; the list then ends in the name and nothing else changes. |
| RolesExact.RejectedExactly | kernel/circulation/channel_manager.go:2373-2401 | Both rejections mark an open request and do nothing else, and exactly when. |
| RolesExact.PermissionApprovedExactly | kernel/circulation/channel_manager.go:2490-2640 | A permission change is approved exactly when the approver of an active channel approves an open request that adds no name of the other list. |
| RolesExact.PermissionEffect | kernel/circulation/channel_manager.go:2513-2640 | Its effect on lists and known kernels for each of the four changes; an unknown change does nothing. |
| RolesRuns.ListsStayApart | kernel/circulation/channel_manager.go:2225-2837 | In every run over all copies, with updates between them in any order, no name ever stands in both lists of any copy. |
| RolesRuns.ProposalIsApart | kernel/circulation/channel_manager.go:511-530 | A validated proposal starts that way. |
| RolesRuns.DecidedAtMostOnce | kernel/circulation/channel_manager.go:2268-2766 | In every run of one copy the decisions taken on a request are none or one, and one exactly when it went from open to settled, although two approval paths share the list. |
| RolesRuns.DecidedAtMostOncePerCopy | kernel/circulation/channel_manager.go:2268-2837 | The same for every copy in every run over all copies. |
| RolesRuns.CopiesMayDecideDifferently | kernel/circulation/channel_manager.go:2268-2837 | A request asked on one kernel and stored on another can be approved on the first and rejected on the second, and the lists then differ. |
| RolesRuns.NamesAreAccountedFor | kernel/circulation/channel_manager.go:2268-2640 | Without updates from elsewhere, every listed name was there at the start or was added by an approved request for that list. |
| RolesRuns.OneConnectorGetsBothRoles | kernel/circulation/channel_manager.go:2268-2640 | In every active channel whose approver takes part, any new connector without a pending request can end up in both lists under two spellings. |
| RolesRuns.ApprovalKeepsConnectorsApart | kernel/circulation/channel_manager.go:2268-2640 | An approval keeps connectors apart exactly when the other list holds no spelling of the added name. |
| RolesRuns.RemovalTakesEffectExactly | kernel/circulation/channel_manager.go:2567-2630 | An approved removal of a sender or a receiver takes out one entry exactly when the name it resolves to is spelled as listed, and empties the list exactly when that was the only entry. |
| RolesRuns.ApprovalDuplicatesExactly | kernel/circulation/channel_manager.go:2541-2605 | A permission approval lists a name twice exactly when its own list has the name already; a subscription approval never does. |
| RolesRuns.RemovalLeavesConnectorListed | kernel/circulation/channel_manager.go:2408-2630 | In every active channel whose approver takes part, two requests for a new connector and their approvals list it twice, and an approved removal then leaves it listed. |
| RolesRuns.ListCanBecomeEmpty | kernel/circulation/channel_manager.go:2408-2630 | From any active channel with two receivers, two requests and two approvals leave none. |
| BusinessChain.BusinessChainManager.BuildAndSignDataHash | connector/database/hash_chain.go:27-62 | Appends a data row linked to the channel's last data row. |
| BusinessChain.BusinessChainManager.ReceiveAndSign | connector/database/hash_chain.go:65-99 | The same for received data. |
| BusinessChain.BusinessChainManager.HandleAck | connector/database/hash_chain.go:105-136 | Appends an ACK row unless the channel has one for that signature. |
| BusinessChain.BusinessChainManager.RecordBusinessData | connector/client/connector.go:2214-2289 | Appends a data row linked to the last data row's hash and the last row's signature. |
| BusinessChain.BusinessChainManager.ReceiveBusinessData | connector/client/connector.go:2295-2346 | Appends a row with the received hash and signature, linked to the last data row. |
| BusinessChain.BusinessChainManager.VerifyChain | connector/database/hash_chain.go:154-199 | Accepts exactly when every data row after position 0 names the hash of the nearest data row before it, or "" if there is none. |
| BusinessChain.AcksPlayNoPart | connector/database/hash_chain.go:154-199 | That verdict is the plain link check on the data rows alone. |
| BusinessChain.ChannelsAreIndependent | connector/database/hash_chain.go:27-136 | What any interleaving leaves in a channel is what the channel's own operations leave in a store of its own. |
| BusinessChain.RunVerifies | connector/database/hash_chain.go:27-136 | Any interleaving over many channels keeps VerifyChain's verdict true for every channel. |
| ChainHistory.HashesAreFold | connector/client/connector.go:2214-2289 | The data hashes of a sender's channel are the fold of its payloads, whatever ACKs come in between. |
| ChainHistory.RowsWrittenOut | connector/client/connector.go:2214-2346 | The row every operation leaves at the end of a sender's channel, field by field: the hash of the data with the hash of all earlier data, that earlier hash, the signature named and the one made. |
| ChainHistory.SameTailExactly | connector/client/connector.go:2238-2246 | Two histories end in the same hash exactly when the shorter is the end of the longer with the earlier hash glued to its first payload. |
| ChainHistory.TailFixesHistory | connector/client/connector.go:2236-2245 | Among histories of equal length the last hash fixes all payloads. |
| ChainHistory.ShorterHistoryWithSameTail | connector/client/connector.go:2236-2245 | Every longer history has a shorter one with the same last hash. |
| ChainHistory.ConnectorAcksUnique | connector/database/hash_chain.go:105-136 | In every reachable store no two ACK rows of a channel answer the same signature. |
| ChainHistory.KernelChain.RecordAck | kernel/server/business_chain_manager.go:57-91 | Appends an ACK row unless the channel's first 100 rows hold one for that signature. |
| ChainHistory.EarlyKernelAcksUnique | kernel/server/business_chain_manager.go:57-91 | In every reachable store an ACK among a channel's first 100 rows has no second copy. |
| ChainHistory.LateAckIsDoubled | kernel/server/business_chain_manager.go:57-91 | After any 100 or more data rows of a channel, an ACK and its repetition leave two ACK rows for one signature. |
| ChainHistory.LateAckRecordedAgain | kernel/database/business_chain_store.go:141-179 | A repeated ACK is recorded again exactly when all its copies lie beyond the first 100 rows. |
| PathChain.Kernel.StreamData | kernel/server/channel_service.go:1111-1217 | The sender's kernel recomputes the hash from its own rows, writes its row and sends its own hash on. |
| PathChain.Kernel.PassData | kernel/server/kernel_service.go:985-1030 | A further kernel recomputes, signs, and passes on the hash it received; an empty payload leaves nothing to write. |
| PathChain.Kernel.WriteData | kernel/server/kernel_service.go:1073-1092 | It then writes its row, reading the previous hash again. |
| PathChain.Kernel.WriteAck | kernel/server/channel_service.go:1503-1516 | An ACK row answering the signature that came in. |
| PathChain.ConnectorStepsAreStoreSteps | connector/client/connector.go:2214-2423 | What the two connectors do in a run is what the methods of their stores do. |
| PathChainProofs.PassInv | kernel/server/kernel_service.go:985-1030 | Passing a packet on keeps the invariant of the whole path, and the hash computed is the one received. |
| PathChainProofs.PassAckInv | kernel/server/kernel_service.go:964-983 | Passing an ACK on keeps it. |
| PathChainTheorems.ChainsAgree | kernel/server/kernel_service.go:985-1096 | For a path of any length and every interleaving of data, ACK and writing steps: no kernel ever computes a hash other than the one received, every node's data hashes are a prefix of the fold of the payloads, and every chain passes VerifyChain. |
| PathChainTheorems.MismatchCountedExactly | kernel/server/kernel_service.go:996-1016 | A kernel counts a mismatch exactly when a packet carries a hash other than that of its payload with the kernel's own last data hash. |
| PathChainTheorems.ArrivingHashIsRecomputed | kernel/server/kernel_service.go:985-1016 | In every run the packet a kernel is about to pass on is the next payload sent, with the hash over all payloads so far, which is the one the kernel computes itself. |
| PathChainTheorems.PayloadsPassInOrder | kernel/server/kernel_service.go:985-1096 | In every run every node handles the payloads in the order they were sent, none lost and none repeated. |
| PathChainTheorems.QuietChainsEqual | kernel/server/channel_service.go:1111-1196 | Once no data is under way every node holds the sender's exact sequence of hashes. |
| PathChainTheorems.SignaturesChain | kernel/server/kernel_service.go:964-1096 | The rows of each packet form one signature chain from the sender over all kernels to the receiver and back along the ACKs to the sender, and the sender's next row continues its last one. |
| PathChainTheorems.EveryPacketAcknowledged | connector/client/connector.go:2353-2423 | Once nothing is under way every node has exactly one data row and one ACK row per packet. |
| PathChainTheorems.InStepExactlyWithoutEmptyPayloads | kernel/server/kernel_service.go:1041-1048 | A kernel beyond the first has one row per non-empty payload, and the sender's sequence exactly when no payload was empty. |
| PathChainProgress.NeverStuck | kernel/server/kernel_service.go:964-1096 | In every reachable state nothing is under way or some step other than sending is possible. |
| PathChainProgress.WorkIsBounded | kernel/server/kernel_service.go:964-1096 | Without further sending only a bounded number of steps follow, in whatever order, so the path comes to rest. |
| Evidence.AuditLog.SubmitBasicEvidenceWithMetadata | kernel/evidence/audit_log.go:274-361 | Appends a record linked to the last hash and enters its position in the indexes of its non-empty keys. |
| Evidence.AuditLog.SubmitBasicEvidenceWithRetry | kernel/evidence/audit_log.go:365-452 | The same without flow and metadata. |
| Evidence.AuditLog.FilterByTimeRange | kernel/evidence/audit_log.go:785-797 | The first `limit` records strictly within the times. |
| Evidence.AuditLog.QueryByChannel | kernel/evidence/audit_log.go:556-589 | That filter over the indexed records. |
| Evidence.AuditLog.QueryBySource | kernel/evidence/audit_log.go:628-661 | The same by source. |
| Evidence.AuditLog.QueryByFlowID | kernel/evidence/audit_log.go:592-625 | The same by flow. |
| Evidence.AuditLog.SignFlow | kernel/evidence/audit_log.go:826-868 | Replaces the signature of the flow's last record and nothing else. |
| Evidence.AuditLog.VerifyFlowLinks | kernel/evidence/audit_log.go:872-897 | Each verdict of VerifyFlow before the check of the signature, and when. |
| EvidenceQueries.SignsFlowTail | kernel/evidence/audit_log.go:826-897 | After any run, signing a flow that has records signs the last record of that flow in the whole log, the one VerifyFlow asks for a signature, and changes no other. |
| EvidenceQueries.SubmittedRecord | kernel/evidence/audit_log.go:274-452 | After any run a submit appends one record with the event as reported and the hash of the record before; the submit with retries drops flow and metadata. |
| EvidenceProofs.RenderingIs | kernel/evidence/audit_log.go:455-466 | The hashed text, field by field. |
| EvidenceProofs.JoinExact | kernel/evidence/audit_log.go:455-466 | Two equally long lists of fields with the same bar-joined rendering are equal exactly when each field has as many bars as its partner. |
| EvidenceProofs.RenderingIsUniqueExactly | kernel/evidence/audit_log.go:455-466 | A list of two or more fields is the only one of its length with its rendering if and only if no field holds a bar. |
| EvidenceProofs.BarsShift | kernel/evidence/audit_log.go:455-466 | A bar in the source can be moved into the target without changing the rendering. |
| EvidenceProofs.RenderingFixesFields | kernel/evidence/audit_log.go:455-471 | Without bars the rendering fixes every covered field, times to the second. |
| EvidenceProofs.EndHashFixesLog | kernel/evidence/audit_log.go:273-316 | Two correctly linked logs that verify throughout and end in the same hash have the same length and agree on every covered field. |
| EvidenceProofs.UncoveredFieldsUnprotected | kernel/evidence/audit_log.go:455-471 | Flow, metadata, signature and the time within its second can change without notice. |
| EvidenceProofs.Run | kernel/evidence/audit_log.go:273-452 | After every run of submits and flow signatures all records verify, the log is linked, and all three indexes hold exactly the positions of a scan. |
| EvidenceProofs.SignOk | kernel/evidence/audit_log.go:826-868 | Signing a flow never invalidates VerifyRecord for any record. |
| EvidenceQueries.QueriesRefineScan | kernel/evidence/audit_log.go:556-661 | After every run a query by channel, source or flow with a non-empty key returns the first `limit` records, in log order, of the plain filter over all records. |
| EvidenceQueries.FlowLinkedExactlyWhenAdjacent | kernel/evidence/audit_log.go:872-897 | In a log built by submits VerifyFlow's link check passes exactly when the flow's records are adjacent in the whole log. |
| PacketCodec.Encode | kernel/operator_peer/packet.go:51-84 | Refuses payloads over 8 MB; otherwise the buffer holds exactly the header and the payload. |
| PacketCodec.DecodePacket | kernel/operator_peer/packet.go:87-132 | The framed packet, or which error, including the slice whose end wraps around 32 bits. |
| PacketCodec.NewPacket | kernel/operator_peer/packet.go:135-148 | A trace id of 16 bytes whatever is given. |
| PacketCodec.WireFormat | kernel/operator_peer/packet.go:51-84 | Every encoding byte by byte: the magic number 0x50503250 high byte first, version, kind, flags and a zero, the length high byte first, the trace id, the payload. |
| PacketCodec.DecodesExactly | kernel/operator_peer/packet.go:87-132 | A packet is decoded exactly when the first four bytes are the magic number and the announced length fits, with the payload after byte 28; each error exactly otherwise. |
| PacketCodec.ReadsExactly | kernel/operator_peer/server.go:48-78 | The same for a packet read from a connection. |
| PacketCodec.Conn.ReadPacket | kernel/operator_peer/server.go:48-78 | The packet read, or the error, and what is left on the connection. |
| PacketCodec.Conn.WritePacket | kernel/operator_peer/server.go:96-113 | Writes exactly the encoding, or nothing. |
| PacketCodec.DecodeUndoesEncode | kernel/operator_peer/packet.go:51-132 | For every payload up to 8 MB decoding the encoding gives back the packet, with the magic number and the true length. |
| PacketCodec.EncodeUndoesDecode | kernel/operator_peer/packet.go:51-132 | Encoding a decoded packet gives back the bytes exactly when the reserved byte is zero. |
| PacketCodec.ReaderAndDecoderAgree | kernel/operator_peer/server.go:48-78 | When the reader accepts, that it reads what the decoder decodes, and where only one of them accepts. |
| PacketCodec.StreamReadsBack | kernel/operator_peer/server.go:48-113 | A stream of any written packets is read back as exactly those in order and what follows is left alone, so the reader never refuses what the writer emits. |
| PacketCodec.StreamFixesPackets | kernel/operator_peer/server.go:48-113 | A stream determines its packets. |
| FileTransfer.SendFile | connector/client/connector.go:1514-1650 | The header, every chunk in order and the end message, for any file length. |
| FileTransferRuns.SentMessages | connector/client/connector.go:1514-1650 | The messages written out: size, number of chunks and hash in the header, then the successive stretches of 1048576 bytes with index and length. |
| FileTransfer.Total | connector/client/connector.go:1554-1555 | The least number of chunks that hold the file. |
| FileTransfer.GlueChunks | connector/client/connector.go:1891-1900 | The chunks in order up to the first missing one. |
| FileTransfer.FileReceiver.HandleFileChunk | connector/client/connector.go:1769-1802 | Stores and counts a chunk, and assembles when enough were counted. |
| FileTransfer.FileReceiver.HandleFileEnd | connector/client/connector.go:1804-1849 | Assembles, or the refusals for a failed or unknown transfer. |
| FileTransfer.FileReceiver.AssembleFile | connector/client/connector.go:1851-1923 | The file and the outcome, and that the transfer is forgotten once enough chunks were counted. |
| FileTransferRuns.AssembledAsAnnounced | connector/client/connector.go:1744-1923 | In every run an assembled file has the hash and the name of its latest header and is on disk with that content. |
| FileTransferRuns.PutTogetherExactly | connector/client/connector.go:1851-1923 | With a chunk missing the part before it is left on disk under the name, with the wrong hash nothing is left under the name, otherwise the file is; the transfer is forgotten and nothing else is touched. |
| FileTransferRuns.OtherwiseDiskStays | connector/client/connector.go:1744-1849 | Every other message leaves the disk alone, and what is answered. |
| FileTransferRuns.FilesAreVouchedFor | connector/client/connector.go:1744-1923 | In every run each file on disk has the hash some header announced for its name, unless a transfer of that name was put together with a chunk missing. |
| FileTransferRuns.FileArrivesExactly | connector/client/connector.go:1769-1923 | For any file, any order of its chunks and any other transfers in between, the file is assembled exactly if and only if no chunk came twice; else the transfer ends with a missing chunk. |
| FileTransferRuns.SentFileArrives | connector/client/connector.go:1514-1923 | What SendFile sends, with its chunks in any order and among any other transfers, is assembled to exactly the file, for any length including 0. |
| FileTransferRuns.EmptyFileArrives | connector/client/connector.go:1804-1923 | A file of length 0 is assembled at its end message. |

## Left out

- gRPC, TLS, certificates, key loading, SQL and JSON: foreign libraries and input or output; a store is the sequence of its rows.
- The cross-kernel handlers (`CrossKernel`) and the network of a path (`PathChain`) are modelled on values, one function per handler; the classes in `Negotiation`, `ChainHistory` and `PathChain` carry the updates in place of each single kernel.
- One channel is modelled in `CrossKernel`; forwarded accepts are trusted to name their accepter; channel updates during negotiation, the branch for creators of other kernels, channels from configuration files and CreateChannel are not modelled.
- Goroutines, locks, timeouts, retries and heartbeats: methods are atomic steps and sends succeed, apart from the network of `CrossKernel`, which may lose, repeat and reorder messages, and the steps of `PathChain`, which interleave.
- Delivery.Channel.PushData: the AfterSent callbacks, the time of last activity and a channel without a manager are not modelled; control messages that change the channel are the methods of `Roles`.
- Delivery.Channel.Subscribe: replay is not cut short by a slow reader; the clean-up of old buffers is not modelled.
- DeliveryRuns.BroadcastReachesExactly: the lists and the status of the channel do not change during the run.
- DeliveryRuns.DirectedReachesExactly: the same holds for it.
- Negotiation.ChannelManager.CloseChannel: closing the data queue and the subscribers' channels is not modelled.
- PathChain.Kernel.StreamData: signing succeeds, and the sender is a connector of the kernel itself; the branches for a failed signature and for a sender named with another kernel are not modelled.
- Roles.Channel.ApprovePermissionChange: sharing of backing arrays between Go slices and the notification of the changed connector are not modelled.
- Evidence.AuditLog.VerifyFlowLinks: the check of the flow signature itself is not modelled; it depends on keys and on the clock.
- Evidence: queries backed by a database, reloading from a file, and the indexes by target and event type, which the two submits do not keep alike.
- Control messages and end-of-flow packets between kernels are not part of the runs of `PathChain`; those runs are about data with its ACKs.
- FileTransfer.SendFile: short reads and send errors are not modelled; nor is the JSON form of the messages.
- Connector registry, bootstrap tokens, temporary chat, peer bookkeeping, command shells: they would only add easy members.
