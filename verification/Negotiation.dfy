/** One kernel's side of channel negotiation: a channel is proposed, gathers one approval per
    participant and becomes active. Methods follow `kernel/circulation/channel_manager.go` and
    the accept handler of `kernel/server/channel_service.go`; the clock is a parameter
    (`expired`: the proposal's time limit has passed). */
module Negotiation {
  import opened Names

  datatype Status = Proposed | Active | Closed

  /** NegotiationStatus of the proposal. */
  datatype Phase = Pending | Accepted | Rejected

  datatype Refusal =
    | ChannelNotFound | ChannelExists | EmptyChannelId | EmptyCreator | NoSenders | NoReceivers
    | EmptyName | DuplicateName | ProposalExpired | ProposalRejected | NotParticipant
    | NotProposed | AlreadyClosed

  datatype Outcome = Done | Refused(why: Refusal)

  /** A kernel's copy of one channel, as far as negotiation is concerned. */
  datatype Copy = Copy(
    creator: string,
    approver: string,
    senders: seq<string>,
    receivers: seq<string>,
    status: Status,
    phase: Phase,
    senderApprovals: map<string, bool>,
    receiverApprovals: map<string, bool>,
    remote: map<string, string>)

  // ------------------------------------------------------------------------------------------
  // Specification functions
  // ------------------------------------------------------------------------------------------

  predicate NoDuplicates(ids: seq<string>) {
    forall i, j | 0 <= i < j < |ids| :: ids[i] != ids[j]
  }

  predicate ValidProposal(creator: string, senders: seq<string>, receivers: seq<string>) {
    && creator != ""
    && senders != [] && receivers != []
    && "" !in senders + receivers
    && NoDuplicates(senders + receivers)
  }

  /** The creator approves its own entry, bare or qualified. */
  predicate NamesCreator(id: string, creator: string) {
    id == creator || HasSuffix(id, ":" + creator)
  }

  function InitialApprovals(ids: seq<string>, creator: string): map<string, bool> {
    map id | id in ids :: NamesCreator(id, creator)
  }

  function ProposedCopy(creator: string, approver: string, senders: seq<string>, receivers: seq<string>,
                        remote: map<string, string>): Copy
  {
    Copy(creator, approver, senders, receivers, Proposed, Pending,
         InitialApprovals(senders, creator), InitialApprovals(receivers, creator), remote)
  }

  /** The approval keys that an accept by `who` may set: the name as given, its bare form, the bare
      form qualified by the kernel it is recorded under, and, for a bare name, by this kernel. */
  function Candidates(kernel: string, remote: map<string, string>, who: string): set<string> {
    var bare := Bare(who);
    {who, bare}
    + (if bare in remote then {Qualify(remote[bare], bare)} else {})
    + (if kernel != "" && !HasColon(who) then {Qualify(kernel, bare)} else {})
  }

  function Mark(approvals: map<string, bool>, ids: set<string>): map<string, bool> {
    map id | id in approvals :: approvals[id] || id in ids
  }

  predicate AllSet(approvals: map<string, bool>, skipQualified: bool) {
    forall id | id in approvals :: approvals[id] || (skipQualified && HasColon(id))
  }

  predicate AllApproved(c: Copy) {
    AllSet(c.senderApprovals, false) && AllSet(c.receiverApprovals, false)
  }

  predicate AnyQualified(ids: seq<string>) {
    exists id | id in ids :: HasColon(id)
  }

  /** The manager's activation test: it looks for qualified names in the participant lists. */
  predicate ReadyToActivate(c: Copy) {
    var local := !AnyQualified(c.senders) && !AnyQualified(c.receivers);
    AllSet(c.senderApprovals, local) && AllSet(c.receiverApprovals, local)
  }

  /** The service's recheck: it looks for qualified names among the approval keys instead. */
  predicate Recheck(c: Copy) {
    var local := (forall id | id in c.senderApprovals :: !HasColon(id))
              && (forall id | id in c.receiverApprovals :: !HasColon(id));
    AllSet(c.senderApprovals, local) && AllSet(c.receiverApprovals, local)
  }

  function Activate(c: Copy): Copy {
    c.(status := Active, phase := Accepted)
  }

  function MarkBoth(c: Copy, ids: set<string>): Copy {
    c.(senderApprovals := Mark(c.senderApprovals, ids), receiverApprovals := Mark(c.receiverApprovals, ids))
  }

  /** ChannelManager.AcceptChannelProposal on an existing channel. */
  function Accept(kernel: string, c: Copy, who: string, expired: bool): (Copy, Outcome) {
    if c.status == Active then (c, Done)
    else if expired then (c, Refused(ProposalExpired))
    else
      var ids := Candidates(kernel, c.remote, who);
      if forall id | id in ids :: id !in c.senderApprovals && id !in c.receiverApprovals
      then (c, Refused(NotParticipant))
      else
        var marked := MarkBoth(c, ids);
        (if ReadyToActivate(marked) then Activate(marked) else marked, Done)
  }

  /** The accept handler of the service: a rejected proposal is refused before the manager is asked. */
  function ServeAccept(kernel: string, c: Copy, who: string, expired: bool): (Copy, Outcome) {
    if c.phase == Rejected then (c, Refused(ProposalRejected)) else Accept(kernel, c, who, expired)
  }

  function Reject(c: Copy, who: string, expired: bool): (Copy, Outcome) {
    if c.status != Proposed then (c, Refused(NotProposed))
    else if who !in c.senders && who !in c.receivers then (c, Refused(NotParticipant))
    else if expired then (c, Refused(ProposalExpired))
    else (c.(status := Closed, phase := Rejected), Done)
  }

  function Close(c: Copy): (Copy, Outcome) {
    if c.status == Closed then (c, Refused(AlreadyClosed)) else (c.(status := Closed), Done)
  }

  // ------------------------------------------------------------------------------------------
  // The kernel's objects
  // ------------------------------------------------------------------------------------------

  function SetOf(ids: seq<string>): set<string> {
    set id | id in ids
  }

  lemma SetOfGrows(ids: seq<string>, i: nat)
    requires i < |ids|
    ensures SetOf(ids[..i + 1]) == SetOf(ids[..i]) + {ids[i]}
  {
    assert ids[..i + 1] == ids[..i] + [ids[i]];
  }

  lemma MarkOneMore(approvals: map<string, bool>, ids: set<string>, id: string)
    ensures Mark(approvals, ids + {id}) ==
            if id in approvals then Mark(approvals, ids)[id := true] else Mark(approvals, ids)
  {
  }

  /** A loop over an approval map, in Go's unspecified order, that stops at the first entry not set. */
  method AllEntriesSet(approvals: map<string, bool>, skipQualified: bool) returns (all: bool)
    ensures all == AllSet(approvals, skipQualified)
  {
    var todo := approvals.Keys;
    while todo != {}
      invariant todo <= approvals.Keys
      invariant forall id | id in approvals && id !in todo :: approvals[id] || (skipQualified && HasColon(id))
    {
      var id :| id in todo;
      if !(skipQualified && HasColon(id)) && !approvals[id] {
        return false;
      }
      todo := todo - {id};
    }
    return true;
  }

  method ContainsQualified(ids: seq<string>) returns (found: bool)
    ensures found == AnyQualified(ids)
  {
    for i := 0 to |ids|
      invariant forall id | id in ids[..i] :: !HasColon(id)
    {
      if HasColon(ids[i]) {
        return true;
      }
    }
    return false;
  }

  class Channel {
    var creatorID: string
    var approverID: string
    var senderIDs: seq<string>
    var receiverIDs: seq<string>
    var status: Status
    var phase: Phase
    var senderApprovals: map<string, bool>
    var receiverApprovals: map<string, bool>
    var remoteReceivers: map<string, string>

    ghost function View(): Copy
      reads this
    {
      Copy(creatorID, approverID, senderIDs, receiverIDs, status, phase,
           senderApprovals, receiverApprovals, remoteReceivers)
    }

    constructor (creator: string, approver: string, senders: seq<string>, receivers: seq<string>,
                 sa: map<string, bool>, ra: map<string, bool>, remote: map<string, string>)
      ensures View() == Copy(creator, approver, senders, receivers, Proposed, Pending, sa, ra, remote)
    {
      creatorID, approverID, senderIDs, receiverIDs := creator, approver, senders, receivers;
      status, phase := Proposed, Pending;
      senderApprovals, receiverApprovals, remoteReceivers := sa, ra, remote;
    }

    /** Sets the entries named by `ids`; says whether there were any. */
    method SetApprovals(ids: seq<string>) returns (participant: bool)
      modifies `senderApprovals, `receiverApprovals
      ensures View() == MarkBoth(old(View()), SetOf(ids))
      ensures participant <==>
        exists id | id in SetOf(ids) :: id in old(senderApprovals) || id in old(receiverApprovals)
      ensures !participant ==> View() == old(View())
    {
      var isSender, isReceiver := false, false;
      for i := 0 to |ids|
        invariant senderApprovals == Mark(old(senderApprovals), SetOf(ids[..i]))
        invariant receiverApprovals == Mark(old(receiverApprovals), SetOf(ids[..i]))
        invariant isSender <==> exists id | id in SetOf(ids[..i]) :: id in old(senderApprovals)
        invariant isReceiver <==> exists id | id in SetOf(ids[..i]) :: id in old(receiverApprovals)
      {
        SetOfGrows(ids, i);
        MarkOneMore(old(senderApprovals), SetOf(ids[..i]), ids[i]);
        MarkOneMore(old(receiverApprovals), SetOf(ids[..i]), ids[i]);
        if ids[i] in senderApprovals {
          senderApprovals := senderApprovals[ids[i] := true];
          isSender := true;
        }
        if ids[i] in receiverApprovals {
          receiverApprovals := receiverApprovals[ids[i] := true];
          isReceiver := true;
        }
      }
      assert ids[..|ids|] == ids;
      return isSender || isReceiver;
    }

    /** The activation test: every participant when the channel spans kernels, else the local ones. */
    method Ready() returns (all: bool)
      ensures all == ReadyToActivate(View())
    {
      var remote := ContainsQualified(senderIDs);
      if !remote {
        remote := ContainsQualified(receiverIDs);
      }
      all := AllEntriesSet(senderApprovals, !remote);
      if all {
        all := AllEntriesSet(receiverApprovals, !remote);
      }
    }
  }

  /** The two loops that initialise an approval map. */
  method StartApprovals(ids: seq<string>, creator: string) returns (m: map<string, bool>)
    ensures m == InitialApprovals(ids, creator)
  {
    m := map[];
    for i := 0 to |ids|
      invariant forall id :: id in m <==> id in ids[..i]
      invariant forall id | id in m :: !m[id]
    {
      m := m[ids[i] := false];
    }
    for i := 0 to |ids|
      invariant forall id :: id in m <==> id in ids
      invariant forall id | id in m :: m[id] <==> id in ids[..i] && NamesCreator(id, creator)
    {
      if NamesCreator(ids[i], creator) {
        m := m[ids[i] := true];
      }
    }
  }

  /** The duplicate scan over both lists. */
  method ScanNames(senders: seq<string>, receivers: seq<string>) returns (r: Outcome)
    ensures r == Done <==> "" !in senders + receivers && NoDuplicates(senders + receivers)
    ensures r == Refused(EmptyName) ==> "" in senders + receivers
    ensures r == Refused(DuplicateName) ==> !NoDuplicates(senders + receivers)
    ensures r in {Done, Refused(EmptyName), Refused(DuplicateName)}
  {
    var all := senders + receivers;
    var seen: set<string> := {};
    for i := 0 to |all|
      invariant seen == set id | id in all[..i]
      invariant "" !in all[..i] && NoDuplicates(all[..i])
    {
      if all[i] == "" {
        return Refused(EmptyName);
      }
      if all[i] in seen {
        return Refused(DuplicateName);
      }
      seen := seen + {all[i]};
    }
    assert all[..|all|] == all;
    return Done;
  }

  /** The candidate list that an accept builds up. */
  method AcceptedNames(kernel: string, remote: map<string, string>, who: string) returns (ids: seq<string>)
    ensures SetOf(ids) == Candidates(kernel, remote, who)
  {
    var bare := who;
    var idx := LastColon(who);
    if idx != -1 {
      bare := who[idx + 1..];
    }
    assert bare == Bare(who);
    ids := [who];
    if bare != who {
      ids := ids + [bare];
    }
    if bare in remote {
      ids := ids + [Qualify(remote[bare], bare)];
    }
    if kernel != "" && !HasColon(who) {
      var local := Qualify(kernel, bare);
      if local !in ids {
        ids := ids + [local];
      }
    }
  }

  class ChannelManager {
    const kernelID: string
    var channels: map<string, Channel>

    constructor (kernel: string)
      ensures kernelID == kernel && channels == map[]
    {
      kernelID, channels := kernel, map[];
    }

    /** The channel id is the fresh identifier drawn for the proposal. */
    method ProposeChannel(channelID: string, creator: string, approver: string,
                          senders: seq<string>, receivers: seq<string>) returns (r: Outcome)
      requires channelID !in channels
      modifies this
      ensures r == Done <==> ValidProposal(creator, senders, receivers)
      ensures r != Done ==> channels == old(channels)
      ensures r == Done ==>
        && channels.Keys == old(channels).Keys + {channelID}
        && (forall id | id in old(channels) :: channels[id] == old(channels)[id])
        && fresh(channels[channelID])
        && channels[channelID].View() == ProposedCopy(creator, approver, senders, receivers, map[])
    {
      if creator == "" {
        return Refused(EmptyCreator);
      }
      if |senders| == 0 {
        return Refused(NoSenders);
      }
      if |receivers| == 0 {
        return Refused(NoReceivers);
      }
      r := ScanNames(senders, receivers);
      if r != Done {
        return;
      }
      var sa := StartApprovals(senders, creator);
      var ra := StartApprovals(receivers, creator);
      var channel := new Channel(creator, approver, senders, receivers, sa, ra, map[]);
      channels := channels[channelID := channel];
    }

    /** Placeholder copy of a channel proposed on another kernel. */
    method CreateChannelWithID(channelID: string, creator: string, approver: string,
                               senders: seq<string>, receivers: seq<string>) returns (r: Outcome)
      modifies this
      ensures r == Done <==>
        channelID != "" && creator != "" && senders != [] && receivers != [] && channelID !in old(channels)
      ensures r != Done ==> channels == old(channels)
      ensures r == Done ==>
        && channels.Keys == old(channels).Keys + {channelID}
        && (forall id | id in old(channels) :: channels[id] == old(channels)[id])
        && fresh(channels[channelID])
        && channels[channelID].View() ==
           ProposedCopy(creator, approver, senders, receivers,
                        AddForeign(AddForeign(map[], kernelID, senders), kernelID, receivers))
    {
      if channelID == "" {
        return Refused(EmptyChannelId);
      }
      if creator == "" {
        return Refused(EmptyCreator);
      }
      if |senders| == 0 {
        return Refused(NoSenders);
      }
      if |receivers| == 0 {
        return Refused(NoReceivers);
      }
      if channelID in channels {
        return Refused(ChannelExists);
      }
      var sa := StartApprovals(senders, creator);
      var ra := StartApprovals(receivers, creator);
      var remote := map[];
      for i := 0 to |senders|
        invariant remote == AddForeign(map[], kernelID, senders[..i])
      {
        assert senders[..i + 1][..i] == senders[..i];
        if HasColon(senders[i]) && KernelOf(senders[i]) != kernelID {
          remote := remote[ConnectorOf(senders[i]) := KernelOf(senders[i])];
        }
      }
      assert senders[..|senders|] == senders;
      ghost var bySenders := remote;
      for i := 0 to |receivers|
        invariant remote == AddForeign(bySenders, kernelID, receivers[..i])
      {
        assert receivers[..i + 1][..i] == receivers[..i];
        if HasColon(receivers[i]) && KernelOf(receivers[i]) != kernelID {
          remote := remote[ConnectorOf(receivers[i]) := KernelOf(receivers[i])];
        }
      }
      assert receivers[..|receivers|] == receivers;
      var channel := new Channel(creator, approver, senders, receivers, sa, ra, remote);
      channels := channels[channelID := channel];
      return Done;
    }

    method AcceptChannelProposal(channelID: string, who: string, expired: bool) returns (r: Outcome)
      modifies if channelID in channels then {channels[channelID]} else {}
      ensures channelID !in channels ==> r == Refused(ChannelNotFound)
      ensures channelID in channels ==>
        (channels[channelID].View(), r) == Accept(kernelID, old(channels[channelID].View()), who, expired)
    {
      if channelID !in channels {
        return Refused(ChannelNotFound);
      }
      var channel := channels[channelID];
      if channel.status == Active {
        return Done;
      }
      if expired {
        return Refused(ProposalExpired);
      }

      var ids := AcceptedNames(kernelID, channel.remoteReceivers, who);
      var participant := channel.SetApprovals(ids);
      if !participant {
        return Refused(NotParticipant);
      }
      var ready := channel.Ready();
      if ready {
        channel.status := Active;
        channel.phase := Accepted;
      }
      return Done;
    }

    method RejectChannelProposal(channelID: string, who: string, expired: bool) returns (r: Outcome)
      modifies if channelID in channels then {channels[channelID]} else {}
      ensures channelID !in channels ==> r == Refused(ChannelNotFound)
      ensures channelID in channels ==>
        (channels[channelID].View(), r) == Reject(old(channels[channelID].View()), who, expired)
    {
      if channelID !in channels {
        return Refused(ChannelNotFound);
      }
      var channel := channels[channelID];
      if channel.status != Proposed {
        return Refused(NotProposed);
      }
      if who !in channel.senderIDs && who !in channel.receiverIDs {
        return Refused(NotParticipant);
      }
      if expired {
        return Refused(ProposalExpired);
      }
      channel.status := Closed;
      channel.phase := Rejected;
      return Done;
    }

    method CloseChannel(channelID: string) returns (r: Outcome)
      modifies if channelID in channels then {channels[channelID]} else {}
      ensures channelID !in channels ==> r == Refused(ChannelNotFound)
      ensures channelID in channels ==>
        (channels[channelID].View(), r) == Close(old(channels[channelID].View()))
    {
      if channelID !in channels {
        return Refused(ChannelNotFound);
      }
      var channel := channels[channelID];
      if channel.status == Closed {
        return Refused(AlreadyClosed);
      }
      channel.status := Closed;
      return Done;
    }
  }

  method AnyKeyQualified(approvals: map<string, bool>) returns (found: bool)
    ensures found == exists id | id in approvals :: HasColon(id)
  {
    var todo := approvals.Keys;
    while todo != {}
      invariant todo <= approvals.Keys
      invariant forall id | id in approvals && id !in todo :: !HasColon(id)
    {
      var id :| id in todo;
      if HasColon(id) {
        return true;
      }
      todo := todo - {id};
    }
    return false;
  }

  /** The accept handler of the service. `announce` is its own verdict, from a second look at the
      approvals, that the channel has just become active. */
  method HandleAccept(manager: ChannelManager, channelID: string, who: string, expired: bool)
    returns (r: Outcome, announce: bool)
    modifies if channelID in manager.channels then {manager.channels[channelID]} else {}
    ensures channelID !in manager.channels ==> r == Refused(ChannelNotFound) && !announce
    ensures channelID in manager.channels ==>
      var after := manager.channels[channelID].View();
      && (after, r) == ServeAccept(manager.kernelID, old(manager.channels[channelID].View()), who, expired)
      && announce == (r == Done && Recheck(after))
  {
    announce := false;
    if channelID !in manager.channels {
      return Refused(ChannelNotFound), false;
    }
    var channel := manager.channels[channelID];
    if channel.phase == Rejected {
      return Refused(ProposalRejected), false;
    }
    r := manager.AcceptChannelProposal(channelID, who, expired);
    if r != Done {
      return;
    }
    var remote := AnyKeyQualified(channel.senderApprovals);
    if !remote {
      remote := AnyKeyQualified(channel.receiverApprovals);
    }
    announce := AllEntriesSet(channel.senderApprovals, !remote);
    if announce {
      announce := AllEntriesSet(channel.receiverApprovals, !remote);
    }
  }

  // ------------------------------------------------------------------------------------------
  // One accept
  // ------------------------------------------------------------------------------------------

  /** Approvals are kept exactly for the listed participants, and an active channel has them all. */
  ghost predicate Consistent(c: Copy) {
    && c.senderApprovals.Keys == (set id | id in c.senders)
    && c.receiverApprovals.Keys == (set id | id in c.receivers)
    && (c.status == Active ==> AllApproved(c))
  }

  ghost predicate Approved(c: Copy, id: string) {
    (id in c.senderApprovals && c.senderApprovals[id]) || (id in c.receiverApprovals && c.receiverApprovals[id])
  }

  lemma CandidateSharesBareName(kernel: string, remote: map<string, string>, who: string, id: string)
    requires id in Candidates(kernel, remote, who)
    ensures Bare(id) == Bare(who)
  {
    var bare := Bare(who);
    if bare in remote && id == Qualify(remote[bare], bare) {
      BareOfQualified(remote[bare], bare);
    } else if id == Qualify(kernel, bare) {
      BareOfQualified(kernel, bare);
    }
  }

  lemma ActivationTestsAgree(c: Copy)
    requires c.senderApprovals.Keys == (set id | id in c.senders)
    requires c.receiverApprovals.Keys == (set id | id in c.receivers)
    ensures ReadyToActivate(c) <==> AllApproved(c)
    ensures Recheck(c) <==> AllApproved(c)
  {
    assert forall id | id in c.senders :: id in c.senderApprovals;
    assert forall id | id in c.receivers :: id in c.receiverApprovals;
    if !AnyQualified(c.senders) && !AnyQualified(c.receivers) {
      assert AllSet(c.senderApprovals, true) ==> AllSet(c.senderApprovals, false);
      assert AllSet(c.receiverApprovals, true) ==> AllSet(c.receiverApprovals, false);
    }
  }

  lemma MarkedAreApproved(c: Copy, ids: set<string>, id: string)
    ensures Approved(MarkBoth(c, ids), id) <==>
            Approved(c, id) || (id in ids && (id in c.senderApprovals || id in c.receiverApprovals))
  {
  }

  /** After a successful accept the channel is active exactly when every approval is set, and the
      service's recheck says so exactly then. */
  lemma AcceptActivatesExactly(kernel: string, c: Copy, who: string, expired: bool)
    requires Consistent(c)
    ensures var (d, r) := ServeAccept(kernel, c, who, expired);
            && Consistent(d)
            && (r == Done ==> (d.status == Active <==> AllApproved(d)) && (Recheck(d) <==> d.status == Active))
            && (r != Done ==> d == c)
  {
    hide Candidates, AnyQualified, AllSet;
    var marked := MarkBoth(c, Candidates(kernel, c.remote, who));
    ActivationTestsAgree(c);
    ActivationTestsAgree(marked);
    ActivationTestsAgree(Activate(marked));
  }

  /** An accept sets only entries that carry the accepter's bare name, and takes nothing back. */
  lemma AcceptSetsOnlyOwnEntries(kernel: string, c: Copy, who: string, expired: bool, id: string)
    ensures var d := ServeAccept(kernel, c, who, expired).0;
            && (Approved(c, id) ==> Approved(d, id))
            && (Approved(d, id) && !Approved(c, id) ==> Bare(id) == Bare(who))
  {
    hide Candidates, ReadyToActivate, Bare, Mark;
    var ids := Candidates(kernel, c.remote, who);
    MarkedAreApproved(c, ids, id);
    if id in ids {
      CandidateSharesBareName(kernel, c.remote, who, id);
    }
  }

  // ------------------------------------------------------------------------------------------
  // Whole negotiations on one kernel
  // ------------------------------------------------------------------------------------------

  datatype Event =
    | AcceptBy(who: string, expired: bool)
    | RejectBy(who: string, expired: bool)
    | CloseIt

  function Serve(kernel: string, c: Copy, e: Event): (Copy, Outcome) {
    match e
    case AcceptBy(who, expired) => ServeAccept(kernel, c, who, expired)
    case RejectBy(who, expired) => Reject(c, who, expired)
    case CloseIt => Close(c)
  }

  function Negotiate(kernel: string, c: Copy, es: seq<Event>): Copy {
    if es == [] then c
    else Serve(kernel, Negotiate(kernel, c, es[..|es| - 1]), es[|es| - 1]).0
  }

  /** Event `e`, met in state `c`, is an accept that counts for entry `id`. */
  ghost predicate Counts(kernel: string, c: Copy, e: Event, id: string) {
    && e.AcceptBy? && !e.expired
    && c.phase != Rejected && c.status != Active
    && id in Candidates(kernel, c.remote, e.who)
  }

  ghost predicate SomeEventCounts(kernel: string, c: Copy, es: seq<Event>, id: string) {
    exists i :: 0 <= i < |es| && Counts(kernel, Negotiate(kernel, c, es[..i]), es[i], id)
  }

  lemma ProposalIsConsistent(creator: string, approver: string, senders: seq<string>, receivers: seq<string>,
                             remote: map<string, string>)
    requires ValidProposal(creator, senders, receivers)
    ensures Consistent(ProposedCopy(creator, approver, senders, receivers, remote))
  {
  }

  lemma SomeEventCountsSplits(kernel: string, c: Copy, es: seq<Event>, e: Event, id: string)
    ensures SomeEventCounts(kernel, c, es + [e], id) <==>
            SomeEventCounts(kernel, c, es, id) || Counts(kernel, Negotiate(kernel, c, es), e, id)
  {
    var fs := es + [e];
    assert fs[..|es|] == es;
    assert forall i | 0 <= i < |es| :: fs[..i] == es[..i] && fs[i] == es[i];
  }

  lemma StepApproves(kernel: string, c: Copy, e: Event, id: string)
    requires Consistent(c)
    requires id in c.senders || id in c.receivers
    ensures Approved(Serve(kernel, c, e).0, id) <==> Approved(c, id) || Counts(kernel, c, e, id)
  {
    hide Candidates, ReadyToActivate;
    if e.AcceptBy? {
      MarkedAreApproved(c, Candidates(kernel, c.remote, e.who), id);
      assert id in c.senderApprovals || id in c.receiverApprovals;
      hide Consistent, Mark;
    }
  }

  lemma {:induction false} RunKeepsConsistent(kernel: string, c: Copy, es: seq<Event>)
    requires Consistent(c)
    ensures Consistent(Negotiate(kernel, c, es))
    ensures Negotiate(kernel, c, es).senders == c.senders && Negotiate(kernel, c, es).receivers == c.receivers
  {
    if es != [] {
      var fs, e := es[..|es| - 1], es[|es| - 1];
      RunKeepsConsistent(kernel, c, fs);
      if e.AcceptBy? {
        AcceptActivatesExactly(kernel, Negotiate(kernel, c, fs), e.who, e.expired);
      }
    }
  }

  /** Whatever the order of accepts, rejections and closings, an entry ends approved exactly when
      it started approved or some accept counted for it; approvals never revert. */
  lemma {:induction false} ApprovalsComeFromAccepts(kernel: string, c: Copy, es: seq<Event>, id: string)
    requires Consistent(c)
    requires id in c.senders || id in c.receivers
    ensures Approved(Negotiate(kernel, c, es), id) <==> Approved(c, id) || SomeEventCounts(kernel, c, es, id)
  {
    if es != [] {
      var fs, e := es[..|es| - 1], es[|es| - 1];
      assert es == fs + [e];
      RunKeepsConsistent(kernel, c, fs);
      ApprovalsComeFromAccepts(kernel, c, fs, id);
      StepApproves(kernel, Negotiate(kernel, c, fs), e, id);
      SomeEventCountsSplits(kernel, c, fs, e, id);
    }
  }

  /** On one kernel a rejection applies exactly when the channel is proposed, in time, and the rejecter is
      listed by the very name it gives. It is final: nothing afterwards changes the channel. */
  lemma {:induction false} RejectionAppliesAndIsFinal(kernel: string, c: Copy, who: string, expired: bool,
                                                      es: seq<Event>)
    ensures var (d, r) := Reject(c, who, expired);
      && (r == Done <==> c.status == Proposed && !expired && who in c.senders + c.receivers)
      && (r == Done ==> Negotiate(kernel, d, es) == d && d.status == Closed && d.phase == Rejected)
      && (r != Done ==> d == c)
  {
    if es != [] {
      RejectionAppliesAndIsFinal(kernel, c, who, expired, es[..|es| - 1]);
      hide Accept;
    }
  }

  /** The manager does not test for Closed: on a closed channel whose proposal was not rejected,
      an accept by a participant reopens the channel exactly when it completes the approvals. A
      channel that was closed after being active is therefore reopened by any participant. */
  lemma ClosedChannelReopens(kernel: string, c: Copy, who: string)
    requires Consistent(c) && c.status == Closed && c.phase != Rejected
    requires exists id | id in Candidates(kernel, c.remote, who) :: id in c.senders || id in c.receivers
    ensures var d := ServeAccept(kernel, c, who, false).0;
            d.status == Active <==> AllApproved(MarkBoth(c, Candidates(kernel, c.remote, who)))
    ensures AllApproved(c) ==> ServeAccept(kernel, c, who, false).0.status == Active
  {
    hide Candidates, ReadyToActivate, Recheck;
    var ids := Candidates(kernel, c.remote, who);
    var id :| id in ids && (id in c.senders || id in c.receivers);
    assert id in c.senderApprovals || id in c.receiverApprovals;
    MarkingKeepsAll(c, ids);
    ActivationTestsAgree(MarkBoth(c, ids));
    hide Consistent, AllApproved, Mark;
  }

  lemma MarkingKeepsAll(c: Copy, ids: set<string>)
    requires Consistent(c)
    ensures Consistent(MarkBoth(c, ids)) && (AllApproved(c) ==> AllApproved(MarkBoth(c, ids)))
  {
  }

  // ------------------------------------------------------------------------------------------
  // The same, name by name
  // ------------------------------------------------------------------------------------------

  /** A new proposal has the lists it was given and is set, name by name, exactly for the creator: under
      its bare name or under whatever kernel. */
  lemma ProposalStartsWith(creator: string, approver: string, senders: seq<string>, receivers: seq<string>,
                           remote: map<string, string>, k: string, x: string)
    requires !HasColon(creator) && !HasColon(x)
    ensures var c := ProposedCopy(creator, approver, senders, receivers, remote);
      && c.creator == creator && c.approver == approver && c.senders == senders && c.receivers == receivers
      && c.status == Proposed && c.phase == Pending && c.remote == remote
      && (Approved(c, x) <==> x in senders + receivers && x == creator)
      && (Approved(c, k + ":" + x) <==> k + ":" + x in senders + receivers && x == creator)
  {
    SuffixOfQualified(k, x, creator);
    assert k + ":" + x == Qualify(k, x);
    NotASuffix(x, creator);
  }

  lemma NotASuffix(x: string, creator: string)
    requires !HasColon(x)
    ensures !HasSuffix(x, ":" + creator)
  {
    var n := |x| - |creator| - 1;
    assert (":" + creator)[0] == ':';
    assert 0 <= n ==> x[n..][0] == x[n] != ':';
  }

  /** The entries an accept may set. Accepting as `x` speaks for `x`, for `x` where it is recorded to be
      hosted and for `x` of this kernel; accepting as `k:x` speaks for that, for `x` and for `x` where it is
      recorded to be hosted. */
  lemma AcceptSpeaksFor(kernel: string, remote: map<string, string>, k: string, x: string, id: string)
    requires !HasColon(x)
    ensures id in Candidates(kernel, remote, x) <==>
      (id == x || (x in remote && id == remote[x] + ":" + x) || (kernel != "" && id == kernel + ":" + x))
    ensures id in Candidates(kernel, remote, k + ":" + x) <==>
      (id == k + ":" + x || id == x || (x in remote && id == remote[x] + ":" + x))
  {
    QualifyIs(k, x);
    QualifyIs(kernel, x);
    if x in remote {
      QualifyIs(remote[x], x);
    }
    BareSpeaksFor(kernel, remote, x);
    QualifiedSpeaksFor(kernel, remote, k, x);
    hide Candidates, Qualify;
  }

  lemma QualifyIs(k: string, x: string)
    ensures Qualify(k, x) == k + ":" + x
  {
  }

  lemma BareSpeaksFor(kernel: string, remote: map<string, string>, x: string)
    requires !HasColon(x)
    ensures Candidates(kernel, remote, x)
         == {x} + (if x in remote then {Qualify(remote[x], x)} else {})
            + (if kernel != "" then {Qualify(kernel, x)} else {})
  {
    assert Bare(x) == x;
    hide Bare, HasColon, Qualify;
  }

  lemma QualifiedSpeaksFor(kernel: string, remote: map<string, string>, k: string, x: string)
    requires !HasColon(x)
    ensures Candidates(kernel, remote, Qualify(k, x))
         == {Qualify(k, x), x} + (if x in remote then {Qualify(remote[x], x)} else {})
  {
    BareOfQualified(k, x);
    hide Bare, HasColon, Qualify;
  }

  /** Some listed name is one the accepter speaks for. */
  ghost predicate SpeaksForSome(kernel: string, c: Copy, who: string) {
    exists id | id in c.senders + c.receivers :: id in Candidates(kernel, c.remote, who)
  }

  lemma SpeaksForSomeExactly(kernel: string, c: Copy, who: string)
    requires Consistent(c)
    ensures SpeaksForSome(kernel, c, who) <==>
      !(forall id | id in Candidates(kernel, c.remote, who) :: id !in c.senderApprovals && id !in c.receiverApprovals)
  {
    hide Candidates;
    assert forall id :: id in c.senderApprovals <==> id in c.senders;
    assert forall id :: id in c.receiverApprovals <==> id in c.receivers;
  }

  /** An accept succeeds exactly when the proposal was not rejected and the channel is active already, or
      the accepter speaks for a listed name in time. It then sets the listed names spoken for, activates
      the channel exactly if none is left open, and leaves an active channel and everything else alone. */
  lemma AcceptExactly(kernel: string, c: Copy, who: string, expired: bool, id: string)
    requires Consistent(c) && id in c.senders + c.receivers
    ensures var (d, r) := ServeAccept(kernel, c, who, expired);
      && (r == Done <==> c.phase != Rejected && (c.status == Active || (!expired && SpeaksForSome(kernel, c, who))))
      && (r != Done || c.status == Active ==> d == c)
      && (r == Done && c.status != Active ==>
            && (Approved(d, id) <==> Approved(c, id) || id in Candidates(kernel, c.remote, who))
            && d.status == (if AllApproved(d) then Active else c.status)
            && d.phase == (if AllApproved(d) then Accepted else c.phase))
      && d == c.(senderApprovals := d.senderApprovals, receiverApprovals := d.receiverApprovals,
                 status := d.status, phase := d.phase)
  {
    hide Candidates, ReadyToActivate, SpeaksForSome, AllApproved;
    var ids := Candidates(kernel, c.remote, who);
    MarkedAreApproved(c, ids, id);
    SpeaksForSomeExactly(kernel, c, who);
    ActivationTestsAgree(MarkBoth(c, ids));
    ActivateKeepsApprovals(MarkBoth(c, ids));
    assert id in c.senderApprovals || id in c.receiverApprovals;
  }

  lemma ActivateKeepsApprovals(c: Copy)
    ensures AllApproved(Activate(c)) <==> AllApproved(c)
    ensures forall id :: Approved(Activate(c), id) <==> Approved(c, id)
  {
  }

  /** Every entry is set: said of the lists. */
  lemma AllApprovedMeans(c: Copy)
    requires Consistent(c)
    ensures AllApproved(c) <==>
      (forall id | id in c.senders :: id in c.senderApprovals && c.senderApprovals[id])
      && (forall id | id in c.receivers :: id in c.receiverApprovals && c.receiverApprovals[id])
  {
    assert forall id | id in c.senderApprovals :: id in c.senders;
    assert forall id | id in c.receiverApprovals :: id in c.receivers;
  }

  /** Closing applies to any channel that is not closed, changes nothing but the status, and holds through
      any run without accepts. */
  lemma {:induction false} ClosedStaysWithoutAccepts(kernel: string, c: Copy, es: seq<Event>)
    requires forall i | 0 <= i < |es| :: !es[i].AcceptBy?
    ensures var (d, r) := Close(c);
      && (r == Done <==> c.status != Closed)
      && d == c.(status := Closed) && Negotiate(kernel, d, es) == d
  {
    if es != [] {
      ClosedStaysWithoutAccepts(kernel, c, es[..|es| - 1]);
      assert !es[|es| - 1].AcceptBy?;
      hide Accept;
    }
  }
}
