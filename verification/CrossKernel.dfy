/** Negotiation of one channel across kernels. Every kernel keeps its own copy; local accepts are
    forwarded to the other kernels, and ACCEPTED notices tell a kernel that the participants hosted
    by the sender of the notice have agreed. The network is a set of messages that only grows, so
    a message may be delivered late, repeatedly, out of order or never. */
module CrossKernel {
  import opened Names
  import opened Negotiation

  /** CrossKernelParticipant: an empty kernel means the kernel that receives the request. */
  datatype Participant = Participant(kernel: string, connector: string)

  /** The kernels, which connector each hosts, and the request that starts the negotiation. */
  datatype Setup = Setup(
    kernels: set<string>,
    home: map<string, string>,
    origin: string,
    creator: string,
    senders: seq<Participant>,
    receivers: seq<Participant>)

  datatype NoticeStatus = SaysProposed | SaysAccepted | SaysRejected

  datatype Msg =
    | ForwardedAccept(dst: string, who: string)
    | Notice(dst: string, src: string, says: NoticeStatus, receiver: string)

  datatype Sys = Sys(copies: map<string, Copy>, net: set<Msg>)

  datatype Step =
    | Propose(reached: set<string>)
    | LocalAccept(kernel: string, connector: string, expired: bool)
    | DeliverAccept(m: Msg, expired: bool)
    | DeliverNotice(m: Msg)
    | LocalReject(kernel: string, connector: string, expired: bool)
    | LocalClose(kernel: string, connector: string)

  // ------------------------------------------------------------------------------------------
  // Handlers
  // ------------------------------------------------------------------------------------------

  function NameOf(su: Setup, p: Participant): string {
    Qualify(if p.kernel != "" then p.kernel else su.origin, p.connector)
  }

  function NamesOf(su: Setup, ps: seq<Participant>): seq<string> {
    seq(|ps|, i requires 0 <= i < |ps| => NameOf(su, ps[i]))
  }

  /** notifyParticipant: a notice goes out when the name resolves to another kernel. */
  function NotifyOne(k: string, c: Copy, id: string, says: NoticeStatus): set<Msg> {
    if id in c.remote && c.remote[id] != "" then
      (if c.remote[id] != k then {Notice(c.remote[id], k, says, id)} else {})
    else if HasColon(id) && KernelOf(id) != k then {Notice(KernelOf(id), k, says, ConnectorOf(id))}
    else {}
  }

  function NotifyAll(k: string, c: Copy, ids: seq<string>, says: NoticeStatus): set<Msg> {
    if ids == [] then {} else NotifyOne(k, c, ids[0], says) + NotifyAll(k, c, ids[1..], says)
  }

  function LearnKernels(c: Copy): Copy {
    c.(remote := AddRemote(AddRemote(c.remote, c.receivers), c.senders))
  }

  /** CreateCrossKernelChannel on the creator's own kernel. Kernels are notified in no particular
      order and the loop stops at the first failure, so any set of them may have been reached. */
  function ProposeAt(su: Setup, reached: set<string>): (Copy, set<Msg>) {
    var senders, receivers := NamesOf(su, su.senders), NamesOf(su, su.receivers);
    (LearnKernels(ProposedCopy(su.creator, su.creator, senders, receivers, map[])),
     set p | p in su.senders + su.receivers && p.kernel !in {"", su.origin} && p.kernel in reached
             && p.connector != "" :: Notice(p.kernel, su.origin, SaysAccepted, p.connector))
  }

  /** forwardAcceptToRemoteKernels */
  function ForwardMsgs(su: Setup, k: string, who: string): set<Msg> {
    set kk | kk in su.kernels && kk != k :: ForwardedAccept(kk, Qualify(k, who))
  }

  /** The notices of an activation: to every participant, to a creator that is none of them, and to
      every other kernel. */
  function ActivationMsgs(su: Setup, k: string, c: Copy): set<Msg> {
    var outsider := if c.creator in c.senders || c.creator in c.receivers then [] else [c.creator];
    NotifyAll(k, c, c.senders + c.receivers + outsider, SaysAccepted)
    + set kk | kk in su.kernels && kk != k :: Notice(kk, k, SaysAccepted, Bare(c.creator))
  }

  /** The accept handler, local or forwarded. */
  function AcceptAt(su: Setup, k: string, c: Copy, who: string, forwarded: bool, expired: bool): (Copy, set<Msg>) {
    var (d, r) := ServeAccept(k, c, who, expired);
    if r != Done then (d, {})
    else
      (if Recheck(d) then LearnKernels(d) else d,
       (if forwarded then {} else ForwardMsgs(su, k, who)) + (if Recheck(d) then ActivationMsgs(su, k, d) else {}))
  }

  /** Marks the listed participants hosted by `src` as having agreed. */
  function ApproveHosted(c: Copy, src: string): Copy {
    c.(senderApprovals := c.senderApprovals + (map id | id in c.senders && HasPrefix(id, src + ":") :: true),
       receiverApprovals := c.receiverApprovals + (map id | id in c.receivers && HasPrefix(id, src + ":") :: true))
  }

  function HeardAccepted(c: Copy, src: string): Copy {
    var d := ApproveHosted(c, src);
    if AllApproved(d) then Activate(d) else d
  }

  /** NotifyChannelCreated on a kernel that already has a copy. */
  function NoticeOnCopy(k: string, c: Copy, m: Msg): (Copy, set<Msg>)
    requires m.Notice?
  {
    var heard := c.status == Proposed && m.says == SaysAccepted;
    var d := if heard then HeardAccepted(c.(phase := Pending), m.src) else c;
    var news := if heard && d.status == Active then NotifyAll(k, d, d.senders + d.receivers, SaysAccepted) else {};
    var e := LearnKernels(d);
    (e, news + NotifyOne(k, e, m.receiver, if e.status == Active then SaysAccepted else SaysProposed))
  }

  /** A participant name as it travels through GetCrossKernelChannelInfo. */
  function FetchedName(src: string, id: string): string {
    if !HasColon(id) then Qualify(src, id) else if KernelOf(id) == "" then ConnectorOf(id) else id
  }

  function FetchedNames(src: string, ids: seq<string>): seq<string> {
    seq(|ids|, i requires 0 <= i < |ids| => FetchedName(src, ids[i]))
  }

  /** NotifyChannelCreated on a kernel without a copy: it fetches the channel from the sender of the
      notice and builds a placeholder. */
  function NoticeOnNothing(k: string, fetched: Copy, m: Msg): (Copy, set<Msg>)
    requires m.Notice?
  {
    var senders, receivers := FetchedNames(m.src, fetched.senders), FetchedNames(m.src, fetched.receivers);
    var c := LearnKernels(ProposedCopy(fetched.creator, fetched.creator, senders, receivers,
                                       AddForeign(AddForeign(map[], k, senders), k, receivers)));
    var d := match m.says
             case SaysProposed => c
             case SaysAccepted => HeardAccepted(c, m.src)
             case SaysRejected => c.(status := Closed, phase := Rejected);
    (d, if d.status == Active then NotifyAll(k, d, d.senders + d.receivers, SaysAccepted)
        else NotifyOne(k, d, m.receiver, SaysProposed))
  }

  function Put(s: Sys, k: string, r: (Copy, set<Msg>)): Sys {
    Sys(s.copies[k := r.0], s.net + r.1)
  }

  predicate IsParticipant(c: Copy, connector: string) {
    exists id | id in c.senders + c.receivers :: Bare(id) == connector
  }

  /** Connectors act only through the kernel that hosts them. */
  predicate ActsAt(su: Setup, s: Sys, k: string, a: string) {
    k in s.copies && a in su.home && su.home[a] == k
  }

  function OnPropose(su: Setup, s: Sys, reached: set<string>): Sys {
    if su.origin in s.copies
       || !ValidProposal(su.creator, NamesOf(su, su.senders), NamesOf(su, su.receivers)) then s
    else Put(s, su.origin, ProposeAt(su, reached))
  }

  function OnNotice(su: Setup, s: Sys, m: Msg): Sys {
    if m !in s.net || !m.Notice? || m.dst !in su.kernels then s
    else if m.dst in s.copies then Put(s, m.dst, NoticeOnCopy(m.dst, s.copies[m.dst], m))
    else if m.src !in s.copies || s.copies[m.src].creator == ""
            || s.copies[m.src].senders == [] || s.copies[m.src].receivers == [] then s
    else Put(s, m.dst, NoticeOnNothing(m.dst, s.copies[m.src], m))
  }

  function OnLocalAccept(su: Setup, s: Sys, k: string, a: string, expired: bool): Sys {
    if ActsAt(su, s, k, a) then Put(s, k, AcceptAt(su, k, s.copies[k], a, false, expired)) else s
  }

  function OnForwardedAccept(su: Setup, s: Sys, m: Msg, expired: bool): Sys {
    if m !in s.net || !m.ForwardedAccept? || m.dst !in s.copies then s
    else Put(s, m.dst, AcceptAt(su, m.dst, s.copies[m.dst], m.who, true, expired))
  }

  function OnReject(su: Setup, s: Sys, k: string, a: string, expired: bool): Sys
    requires k in s.copies
  {
    var (d, r) := Reject(s.copies[k], a, expired);
    if r != Done then s else Put(s, k, (d, NotifyAll(k, d, [d.creator] + d.senders, SaysRejected)))
  }

  /** A step that is not enabled does nothing. */
  function Next(su: Setup, s: Sys, step: Step): Sys {
    match step
    case Propose(reached) => OnPropose(su, s, reached)
    case LocalAccept(k, a, expired) => OnLocalAccept(su, s, k, a, expired)
    case DeliverAccept(m, expired) => OnForwardedAccept(su, s, m, expired)
    case DeliverNotice(m) => OnNotice(su, s, m)
    case LocalReject(k, a, expired) => if ActsAt(su, s, k, a) then OnReject(su, s, k, a, expired) else s
    case LocalClose(k, a) =>
      if ActsAt(su, s, k, a) && IsParticipant(s.copies[k], a) then Put(s, k, (Close(s.copies[k]).0, {})) else s
  }

  function Run(su: Setup, steps: seq<Step>): Sys {
    if steps == [] then Sys(map[], {})
    else Next(su, Run(su, steps[..|steps| - 1]), steps[|steps| - 1])
  }

  // ------------------------------------------------------------------------------------------
  // What is assumed and what is promised
  // ------------------------------------------------------------------------------------------

  /** Connector names are distinct across kernels, and the request names each participant's kernel
      correctly. */
  ghost predicate WellHosted(su: Setup) {
    && !HasColon(su.creator) && !HasColon(su.origin)
    && (forall k | k in su.kernels :: k != "" && !HasColon(k))
    && su.origin in su.kernels
    && (forall a | a in su.home :: a != "" && !HasColon(a) && su.home[a] in su.kernels)
    && (forall p | p in su.senders + su.receivers ::
          && p.connector in su.home
          && su.home[p.connector] == (if p.kernel != "" then p.kernel else su.origin))
  }

  ghost predicate OriginHostsOnlyCreator(su: Setup)
    requires WellHosted(su)
  {
    forall p | p in su.senders + su.receivers :: su.home[p.connector] == su.origin ==> p.connector == su.creator
  }

  ghost predicate AllAtOrigin(su: Setup)
    requires WellHosted(su)
  {
    forall p | p in su.senders + su.receivers :: su.home[p.connector] == su.origin
  }

  /** What a caller can check before proposing: at proposal time the origin sends ACCEPTED on behalf
      of all the participants it hosts, so either it hosts only the creator, or nobody is told. */
  ghost predicate OriginMaySpeak(su: Setup)
    requires WellHosted(su)
  {
    OriginHostsOnlyCreator(su) || AllAtOrigin(su)
  }

  /** The step is an accept of a connector that its kernel serves: the kernel has a copy, which is not
      active yet, and does not refuse the accept. */
  ghost predicate Served(su: Setup, s: Sys, step: Step) {
    && step.LocalAccept? && ActsAt(su, s, step.kernel, step.connector)
    && s.copies[step.kernel].status != Active
    && ServeAccept(step.kernel, s.copies[step.kernel], step.connector, step.expired).1 == Done
  }

  /** The connectors that have themselves accepted during the run, and were not refused. */
  ghost function Accepters(su: Setup, steps: seq<Step>): set<string> {
    set i | 0 <= i < |steps| && Served(su, Run(su, steps[..i]), steps[i]) :: steps[i].connector
  }

  /** Nobody's copy is active unless every participant has accepted or is the creator. */
  ghost predicate Safe(su: Setup, steps: seq<Step>) {
    forall k, p | k in Run(su, steps).copies && Run(su, steps).copies[k].status == Active
                  && p in su.senders + su.receivers ::
      p.connector in Accepters(su, steps) || p.connector == su.creator
  }

  // ------------------------------------------------------------------------------------------
  // The inductive invariant
  // ------------------------------------------------------------------------------------------

  ghost predicate Vouched(su: Setup, done: set<string>, id: string) {
    Bare(id) in done || Bare(id) == su.creator
  }

  /** A connector that has accepted, is the creator or takes no part. */
  ghost predicate Cleared(su: Setup, done: set<string>, connector: string) {
    || connector in done || connector == su.creator
    || forall p | p in su.senders + su.receivers :: p.connector != connector
  }

  ghost predicate RemoteOk(su: Setup, remote: map<string, string>) {
    forall b | b in remote :: b in su.home && remote[b] == su.home[b]
  }

  ghost predicate ApprovalsOk(su: Setup, done: set<string>, approvals: map<string, bool>) {
    forall id | id in approvals && approvals[id] :: Vouched(su, done, id)
  }

  ghost predicate CopyOk(su: Setup, done: set<string>, c: Copy) {
    && c.creator == su.creator
    && c.senders == NamesOf(su, su.senders)
    && c.receivers == NamesOf(su, su.receivers)
    && Consistent(c)
    && RemoteOk(su, c.remote)
    && ApprovalsOk(su, done, c.senderApprovals)
    && ApprovalsOk(su, done, c.receiverApprovals)
  }

  ghost predicate SpeaksFor(su: Setup, done: set<string>, src: string)
    requires WellHosted(su)
  {
    forall p | p in su.senders + su.receivers :: su.home[p.connector] == src ==>
      p.connector in done || p.connector == su.creator
  }

  ghost predicate MsgOk(su: Setup, done: set<string>, m: Msg)
    requires WellHosted(su)
  {
    match m
    case ForwardedAccept(_, who) => Cleared(su, done, Bare(who))
    case Notice(_, src, says, _) => src in su.kernels && (says == SaysAccepted ==> SpeaksFor(su, done, src))
  }

  ghost predicate SysOk(su: Setup, done: set<string>, s: Sys)
    requires WellHosted(su)
  {
    && (forall k | k in s.copies :: k in su.kernels && CopyOk(su, done, s.copies[k]))
    && (forall m | m in s.net :: MsgOk(su, done, m))
  }

  lemma ParticipantName(su: Setup, p: Participant)
    requires WellHosted(su) && p in su.senders + su.receivers
    ensures Bare(NameOf(su, p)) == p.connector
    ensures NameOf(su, p) == Qualify(su.home[p.connector], p.connector)
    ensures ConnectorOf(NameOf(su, p)) == p.connector && KernelOf(NameOf(su, p)) == su.home[p.connector]
  {
    BareOfQualified(su.home[p.connector], p.connector);
    QualifySplits(su.home[p.connector], p.connector);
  }

  lemma ListedName(su: Setup, ps: seq<Participant>, id: string) returns (p: Participant)
    requires WellHosted(su) && id in NamesOf(su, ps)
    requires forall q | q in ps :: q in su.senders + su.receivers
    ensures p in ps && id == NameOf(su, p) && Bare(id) == p.connector
    ensures HasColon(id) && ConnectorOf(id) == p.connector && KernelOf(id) == su.home[p.connector]
    ensures id == Qualify(su.home[p.connector], p.connector)
  {
    var i :| 0 <= i < |ps| && NamesOf(su, ps)[i] == id;
    p := ps[i];
    ParticipantName(su, p);
  }

  lemma {:induction false} AddRemoteOk(su: Setup, remote: map<string, string>, ps: seq<Participant>, ids: seq<string>)
    requires WellHosted(su) && RemoteOk(su, remote)
    requires forall q | q in ps :: q in su.senders + su.receivers
    requires forall id | id in ids :: id in NamesOf(su, ps)
    ensures RemoteOk(su, AddRemote(remote, ids))
  {
    if ids != [] {
      AddRemoteOk(su, remote, ps, ids[..|ids| - 1]);
      var p := ListedName(su, ps, ids[|ids| - 1]);
    }
  }

  lemma {:induction false} AddForeignOk(su: Setup, remote: map<string, string>, here: string,
                                        ps: seq<Participant>, ids: seq<string>)
    requires WellHosted(su) && RemoteOk(su, remote)
    requires forall q | q in ps :: q in su.senders + su.receivers
    requires forall id | id in ids :: id in NamesOf(su, ps)
    ensures RemoteOk(su, AddForeign(remote, here, ids))
  {
    if ids != [] {
      AddForeignOk(su, remote, here, ps, ids[..|ids| - 1]);
      var p := ListedName(su, ps, ids[|ids| - 1]);
    }
  }

  lemma LearnKernelsOk(su: Setup, c: Copy)
    requires WellHosted(su) && RemoteOk(su, c.remote)
    requires c.senders == NamesOf(su, su.senders) && c.receivers == NamesOf(su, su.receivers)
    ensures RemoteOk(su, LearnKernels(c).remote)
  {
    AddRemoteOk(su, c.remote, su.receivers, c.receivers);
    AddRemoteOk(su, AddRemote(c.remote, c.receivers), su.senders, c.senders);
  }

  /** A copy with all approvals speaks for every participant. */
  lemma AllApprovedSpeaks(su: Setup, done: set<string>, c: Copy, p: Participant)
    requires WellHosted(su) && CopyOk(su, done, c) && AllApproved(c)
    requires p in su.senders + su.receivers
    ensures p.connector in done || p.connector == su.creator
  {
    ParticipantName(su, p);
    if p in su.senders {
      var i :| 0 <= i < |su.senders| && su.senders[i] == p;
      assert c.senders[i] in c.senderApprovals;
    } else {
      var i :| 0 <= i < |su.receivers| && su.receivers[i] == p;
      assert c.receivers[i] in c.receiverApprovals;
    }
  }

  lemma {:induction false} NotifyAllFrom(k: string, c: Copy, ids: seq<string>, says: NoticeStatus, m: Msg)
    requires m in NotifyAll(k, c, ids, says)
    ensures m.Notice? && m.src == k && m.says == says
  {
    if m !in NotifyOne(k, c, ids[0], says) {
      NotifyAllFrom(k, c, ids[1..], says, m);
    }
  }

  lemma CreatorEntry(su: Setup, ps: seq<Participant>, done: set<string>)
    requires WellHosted(su)
    requires forall q | q in ps :: q in su.senders + su.receivers
    ensures ApprovalsOk(su, done, InitialApprovals(NamesOf(su, ps), su.creator))
  {
    forall id | id in NamesOf(su, ps) && NamesCreator(id, su.creator)
      ensures Vouched(su, done, id)
    {
      var p := ListedName(su, ps, id);
      SuffixOfQualified(su.home[p.connector], p.connector, su.creator);
    }
  }

  lemma ProposeOk(su: Setup, done: set<string>, reached: set<string>)
    requires WellHosted(su) && OriginMaySpeak(su)
    requires ValidProposal(su.creator, NamesOf(su, su.senders), NamesOf(su, su.receivers))
    ensures CopyOk(su, done, ProposeAt(su, reached).0)
    ensures forall m | m in ProposeAt(su, reached).1 :: MsgOk(su, done, m)
  {
    var senders, receivers := NamesOf(su, su.senders), NamesOf(su, su.receivers);
    CreatorEntry(su, su.senders, done);
    CreatorEntry(su, su.receivers, done);
    LearnKernelsOk(su, ProposedCopy(su.creator, su.creator, senders, receivers, map[]));
  }

  /** An accept by a connector that is cleared sets only that connector's entry. */
  lemma AcceptKeepsApprovals(su: Setup, done: set<string>, k: string, c: Copy, who: string, ps: seq<Participant>,
                             approvals: map<string, bool>)
    requires WellHosted(su) && ApprovalsOk(su, done, approvals) && Cleared(su, done, Bare(who))
    requires forall q | q in ps :: q in su.senders + su.receivers
    requires forall id | id in approvals :: id in NamesOf(su, ps)
    ensures ApprovalsOk(su, done, Mark(approvals, Candidates(k, c.remote, who)))
  {
    var ids := Candidates(k, c.remote, who);
    forall id | id in approvals && Mark(approvals, ids)[id]
      ensures Vouched(su, done, id)
    {
      if !approvals[id] {
        CandidateSharesBareName(k, c.remote, who, id);
        var p := ListedName(su, ps, id);
      }
    }
  }

  lemma ServeAcceptOk(su: Setup, done: set<string>, k: string, c: Copy, who: string, expired: bool)
    requires WellHosted(su) && CopyOk(su, done, c) && Cleared(su, done, Bare(who))
    ensures CopyOk(su, done, ServeAccept(k, c, who, expired).0)
  {
    hide Candidates, ReadyToActivate, Recheck, AllApproved, Mark, ApprovalsOk, RemoteOk, WellHosted, Cleared, NamesOf;
    KeysAreListed(c);
    hide Consistent;
    AcceptActivatesExactly(k, c, who, expired);
    AcceptKeepsApprovals(su, done, k, c, who, su.senders, c.senderApprovals);
    AcceptKeepsApprovals(su, done, k, c, who, su.receivers, c.receiverApprovals);
  }

  lemma KeysAreListed(c: Copy)
    requires Consistent(c)
    ensures forall id | id in c.senderApprovals :: id in c.senders
    ensures forall id | id in c.receiverApprovals :: id in c.receivers
  {
    hide AllApproved;
    assert forall id | id in c.senderApprovals :: id in c.senderApprovals.Keys;
    assert forall id | id in c.receiverApprovals :: id in c.receiverApprovals.Keys;
  }

  lemma ActivationMsgsOk(su: Setup, done: set<string>, k: string, c: Copy)
    requires WellHosted(su) && k in su.kernels && CopyOk(su, done, c) && AllApproved(c)
    ensures forall m | m in ActivationMsgs(su, k, c) :: MsgOk(su, done, m)
  {
    SpeaksForAll(su, done, c, k);
    var outsider := if c.creator in c.senders || c.creator in c.receivers then [] else [c.creator];
    var ids := c.senders + c.receivers + outsider;
    forall m | m in NotifyAll(k, c, ids, SaysAccepted)
      ensures m.Notice? && m.src == k && m.says == SaysAccepted
    {
      NotifyAllFrom(k, c, ids, SaysAccepted, m);
    }
  }

  lemma ForwardMsgsOk(su: Setup, done: set<string>, k: string, who: string)
    requires WellHosted(su) && Cleared(su, done, who) && !HasColon(who)
    ensures forall m | m in ForwardMsgs(su, k, who) :: MsgOk(su, done, m)
  {
    BareOfQualified(k, who);
  }

  lemma AcceptOk(su: Setup, done: set<string>, k: string, c: Copy, who: string, forwarded: bool, expired: bool)
    requires WellHosted(su) && k in su.kernels && CopyOk(su, done, c) && Cleared(su, done, Bare(who))
    requires !forwarded ==> !HasColon(who)
    ensures CopyOk(su, done, AcceptAt(su, k, c, who, forwarded, expired).0)
    ensures forall m | m in AcceptAt(su, k, c, who, forwarded, expired).1 :: MsgOk(su, done, m)
  {
    var d := ServeAccept(k, c, who, expired).0;
    ServeAcceptOk(su, done, k, c, who, expired);
    ActivationTestsAgree(d);
    if !forwarded {
      ForwardMsgsOk(su, done, k, who);
    }
    if Recheck(d) {
      LearnKernelsOk(su, d);
      ActivationMsgsOk(su, done, k, d);
    }
  }

  lemma SpeaksForAll(su: Setup, done: set<string>, c: Copy, k: string)
    requires WellHosted(su) && CopyOk(su, done, c) && AllApproved(c)
    ensures SpeaksFor(su, done, k)
  {
    forall p | p in su.senders + su.receivers
      ensures p.connector in done || p.connector == su.creator
    {
      AllApprovedSpeaks(su, done, c, p);
    }
  }

  lemma ApproveHostedMapOk(su: Setup, done: set<string>, ps: seq<Participant>, approvals: map<string, bool>,
                           src: string)
    requires WellHosted(su) && src in su.kernels && SpeaksFor(su, done, src)
    requires forall q | q in ps :: q in su.senders + su.receivers
    requires ApprovalsOk(su, done, approvals)
    ensures ApprovalsOk(su, done, approvals + (map id | id in NamesOf(su, ps) && HasPrefix(id, src + ":") :: true))
  {
    forall id | id in NamesOf(su, ps) && HasPrefix(id, src + ":")
      ensures Vouched(su, done, id)
    {
      var p := ListedName(su, ps, id);
      PrefixOfQualified(su.home[p.connector], p.connector, src);
    }
  }

  lemma HeardAcceptedConsistent(c: Copy, src: string)
    requires Consistent(c)
    ensures Consistent(HeardAccepted(c, src))
  {
    var d := ApproveHosted(c, src);
    assert d.senderApprovals.Keys == c.senderApprovals.Keys;
    assert d.receiverApprovals.Keys == c.receiverApprovals.Keys;
  }

  lemma HeardAcceptedOk(su: Setup, done: set<string>, c: Copy, src: string)
    requires WellHosted(su) && src in su.kernels && SpeaksFor(su, done, src)
    requires CopyOk(su, done, c)
    ensures CopyOk(su, done, HeardAccepted(c, src))
  {
    ApproveHostedMapOk(su, done, su.senders, c.senderApprovals, src);
    ApproveHostedMapOk(su, done, su.receivers, c.receiverApprovals, src);
    HeardAcceptedConsistent(c, src);
  }

  lemma NotifyOk(su: Setup, done: set<string>, k: string, c: Copy, ids: seq<string>, says: NoticeStatus)
    requires WellHosted(su) && k in su.kernels
    requires says == SaysAccepted ==> SpeaksFor(su, done, k)
    ensures forall m | m in NotifyAll(k, c, ids, says) :: MsgOk(su, done, m)
    ensures forall id, m | m in NotifyOne(k, c, id, says) :: MsgOk(su, done, m)
  {
    forall m | m in NotifyAll(k, c, ids, says)
      ensures MsgOk(su, done, m)
    {
      NotifyAllFrom(k, c, ids, says, m);
    }
  }

  lemma NoticeOnCopyOk(su: Setup, done: set<string>, k: string, c: Copy, m: Msg)
    requires WellHosted(su) && k in su.kernels && CopyOk(su, done, c)
    requires m.Notice? && MsgOk(su, done, m)
    ensures CopyOk(su, done, NoticeOnCopy(k, c, m).0)
    ensures forall n | n in NoticeOnCopy(k, c, m).1 :: MsgOk(su, done, n)
  {
    var heard := c.status == Proposed && m.says == SaysAccepted;
    var d := if heard then HeardAccepted(c.(phase := Pending), m.src) else c;
    if heard {
      HeardAcceptedOk(su, done, c.(phase := Pending), m.src);
    }
    LearnKernelsOk(su, d);
    if d.status == Active {
      SpeaksForAll(su, done, d, k);
    }
    NotifyOk(su, done, k, d, d.senders + d.receivers, if d.status == Active then SaysAccepted else SaysProposed);
    NotifyOk(su, done, k, LearnKernels(d), [], if d.status == Active then SaysAccepted else SaysProposed);
  }

  /** The names of a valid copy travel unchanged. */
  lemma FetchKeepsNames(su: Setup, src: string, ps: seq<Participant>)
    requires WellHosted(su)
    requires forall q | q in ps :: q in su.senders + su.receivers
    ensures FetchedNames(src, NamesOf(su, ps)) == NamesOf(su, ps)
  {
    forall i | 0 <= i < |ps|
      ensures FetchedName(src, NamesOf(su, ps)[i]) == NamesOf(su, ps)[i]
    {
      ParticipantName(su, ps[i]);
    }
  }

  lemma PlaceholderOk(su: Setup, done: set<string>, k: string)
    requires WellHosted(su)
    ensures var senders, receivers := NamesOf(su, su.senders), NamesOf(su, su.receivers);
            CopyOk(su, done, LearnKernels(ProposedCopy(su.creator, su.creator, senders, receivers,
                                          AddForeign(AddForeign(map[], k, senders), k, receivers))))
  {
    var senders, receivers := NamesOf(su, su.senders), NamesOf(su, su.receivers);
    CreatorEntry(su, su.senders, done);
    CreatorEntry(su, su.receivers, done);
    AddForeignOk(su, map[], k, su.senders, senders);
    AddForeignOk(su, AddForeign(map[], k, senders), k, su.receivers, receivers);
    LearnKernelsOk(su, ProposedCopy(su.creator, su.creator, senders, receivers,
                                    AddForeign(AddForeign(map[], k, senders), k, receivers)));
  }

  lemma NoticeOnNothingOk(su: Setup, done: set<string>, k: string, fetched: Copy, m: Msg)
    requires WellHosted(su) && k in su.kernels && CopyOk(su, done, fetched)
    requires m.Notice? && MsgOk(su, done, m)
    ensures CopyOk(su, done, NoticeOnNothing(k, fetched, m).0)
    ensures forall n | n in NoticeOnNothing(k, fetched, m).1 :: MsgOk(su, done, n)
  {
    FetchKeepsNames(su, m.src, su.senders);
    FetchKeepsNames(su, m.src, su.receivers);
    PlaceholderOk(su, done, k);
    var senders, receivers := NamesOf(su, su.senders), NamesOf(su, su.receivers);
    var c := LearnKernels(ProposedCopy(su.creator, su.creator, senders, receivers,
                                       AddForeign(AddForeign(map[], k, senders), k, receivers)));
    if m.says == SaysAccepted {
      HeardAcceptedOk(su, done, c, m.src);
    }
    var d := NoticeOnNothing(k, fetched, m).0;
    if d.status == Active {
      SpeaksForAll(su, done, d, k);
    }
    NotifyOk(su, done, k, d, d.senders + d.receivers, if d.status == Active then SaysAccepted else SaysProposed);
  }

  // ------------------------------------------------------------------------------------------
  // Every run
  // ------------------------------------------------------------------------------------------

  lemma MoreAccepters(su: Setup, done: set<string>, more: set<string>, s: Sys)
    requires WellHosted(su) && SysOk(su, done, s) && done <= more
    ensures SysOk(su, more, s)
  {
  }

  ghost function Joined(su: Setup, s: Sys, step: Step): set<string> {
    if Served(su, s, step) then {step.connector} else {}
  }

  lemma PutOk(su: Setup, done: set<string>, s: Sys, k: string, r: (Copy, set<Msg>))
    requires WellHosted(su) && SysOk(su, done, s) && k in su.kernels
    requires CopyOk(su, done, r.0) && forall m | m in r.1 :: MsgOk(su, done, m)
    ensures SysOk(su, done, Put(s, k, r))
  {
  }

  lemma RejectOk(su: Setup, done: set<string>, k: string, c: Copy, who: string, expired: bool)
    requires WellHosted(su) && k in su.kernels && CopyOk(su, done, c)
    ensures var d := Reject(c, who, expired).0;
            CopyOk(su, done, d)
            && forall m | m in NotifyAll(k, d, [d.creator] + d.senders, SaysRejected) :: MsgOk(su, done, m)
  {
    var d := Reject(c, who, expired).0;
    NotifyOk(su, done, k, d, [d.creator] + d.senders, SaysRejected);
  }

  lemma NoticeStepOk(su: Setup, done: set<string>, s: Sys, m: Msg)
    requires WellHosted(su) && SysOk(su, done, s)
    ensures SysOk(su, done, OnNotice(su, s, m))
  {
    hide CopyOk, MsgOk, NoticeOnCopy, NoticeOnNothing, WellHosted, Put;
    if m in s.net && m.Notice? && m.dst in su.kernels {
      assert MsgOk(su, done, m);
      if m.dst in s.copies {
        NoticeOnCopyOk(su, done, m.dst, s.copies[m.dst], m);
        PutOk(su, done, s, m.dst, NoticeOnCopy(m.dst, s.copies[m.dst], m));
      } else if m.src in s.copies {
        NoticeOnNothingOk(su, done, m.dst, s.copies[m.src], m);
        PutOk(su, done, s, m.dst, NoticeOnNothing(m.dst, s.copies[m.src], m));
      }
    }
  }

  lemma AcceptStepOk(su: Setup, done: set<string>, s: Sys, k: string, who: string, forwarded: bool, expired: bool)
    requires WellHosted(su) && SysOk(su, done, s) && k in s.copies && Cleared(su, done, Bare(who))
    requires !forwarded ==> !HasColon(who)
    ensures SysOk(su, done, Put(s, k, AcceptAt(su, k, s.copies[k], who, forwarded, expired)))
  {
    AcceptOk(su, done, k, s.copies[k], who, forwarded, expired);
    PutOk(su, done, s, k, AcceptAt(su, k, s.copies[k], who, forwarded, expired));
  }

  lemma ProposeStepOk(su: Setup, done: set<string>, s: Sys, reached: set<string>)
    requires WellHosted(su) && OriginMaySpeak(su) && SysOk(su, done, s)
    ensures SysOk(su, done, OnPropose(su, s, reached))
  {
    if ValidProposal(su.creator, NamesOf(su, su.senders), NamesOf(su, su.receivers)) {
      ProposeOk(su, done, reached);
      PutOk(su, done, s, su.origin, ProposeAt(su, reached));
    }
  }

  lemma RejectStepOk(su: Setup, done: set<string>, s: Sys, k: string, a: string, expired: bool)
    requires WellHosted(su) && SysOk(su, done, s) && k in s.copies
    ensures SysOk(su, done, OnReject(su, s, k, a, expired))
  {
    RejectOk(su, done, k, s.copies[k], a, expired);
    var d := Reject(s.copies[k], a, expired).0;
    PutOk(su, done, s, k, (d, NotifyAll(k, d, [d.creator] + d.senders, SaysRejected)));
  }

  /** An accept that the kernel refuses changes nothing; one on an active copy comes from a connector that
      has been heard already or takes no part. */
  lemma LocalAcceptOk(su: Setup, done: set<string>, s: Sys, k: string, a: string, expired: bool)
    requires WellHosted(su) && SysOk(su, done, s)
    ensures SysOk(su, done + Joined(su, s, LocalAccept(k, a, expired)), OnLocalAccept(su, s, k, a, expired))
  {
    hide SysOk, ServeAccept, CopyOk, Cleared, WellHosted, AcceptAt, Put;
    var more := done + Joined(su, s, LocalAccept(k, a, expired));
    MoreAccepters(su, done, more, s);
    if ActsAt(su, s, k, a) {
      if ServeAccept(k, s.copies[k], a, expired).1 != Done {
        RefusedStepIsInert(su, s, k, a, expired);
      } else {
        ActorIsCleared(su, more, s, k, a);
        AcceptStepOk(su, more, s, k, a, false, expired);
      }
    }
  }

  lemma RefusedStepIsInert(su: Setup, s: Sys, k: string, a: string, expired: bool)
    requires ActsAt(su, s, k, a) && ServeAccept(k, s.copies[k], a, expired).1 != Done
    ensures OnLocalAccept(su, s, k, a, expired) == s
  {
    hide ServeAccept, AcceptAt;
    RefusedAcceptIsInert(su, k, s.copies[k], a, expired);
    assert s.copies[k := s.copies[k]] == s.copies && s.net + {} == s.net;
  }

  lemma ActorIsCleared(su: Setup, done: set<string>, s: Sys, k: string, a: string)
    requires WellHosted(su) && SysOk(su, done, s) && ActsAt(su, s, k, a)
    requires s.copies[k].status != Active ==> a in done
    ensures !HasColon(a) && Cleared(su, done, Bare(a))
  {
    hide SysOk, CopyOk, Cleared, WellHosted;
    ActorIsBare(su, s, k, a);
    CopyIsOk(su, done, s, k);
    if s.copies[k].status == Active {
      ActiveMeansCleared(su, done, s.copies[k], a);
    } else {
      NewlyCleared(su, done, a);
    }
  }

  lemma ActorIsBare(su: Setup, s: Sys, k: string, a: string)
    requires WellHosted(su) && ActsAt(su, s, k, a)
    ensures !HasColon(a) && Bare(a) == a
  {
  }

  lemma CopyIsOk(su: Setup, done: set<string>, s: Sys, k: string)
    requires WellHosted(su) && SysOk(su, done, s) && k in s.copies
    ensures k in su.kernels && CopyOk(su, done, s.copies[k])
  {
    hide CopyOk, MsgOk;
  }

  lemma NewlyCleared(su: Setup, done: set<string>, a: string)
    requires a in done
    ensures Cleared(su, done, a)
  {
  }

  lemma RefusedAcceptIsInert(su: Setup, k: string, c: Copy, who: string, expired: bool)
    requires ServeAccept(k, c, who, expired).1 != Done
    ensures AcceptAt(su, k, c, who, false, expired) == (c, {})
  {
    hide Candidates, ReadyToActivate, Recheck, ForwardMsgs, ActivationMsgs;
  }

  lemma ActiveMeansCleared(su: Setup, done: set<string>, c: Copy, a: string)
    requires WellHosted(su) && CopyOk(su, done, c) && c.status == Active
    ensures Cleared(su, done, a)
  {
    hide CopyOk, WellHosted;
    if p :| p in su.senders + su.receivers && p.connector == a {
      ActiveIsApproved(su, done, c);
      AllApprovedSpeaks(su, done, c, p);
    }
  }

  lemma ActiveIsApproved(su: Setup, done: set<string>, c: Copy)
    requires CopyOk(su, done, c) && c.status == Active
    ensures AllApproved(c)
  {
    hide AllApproved, ApprovalsOk, RemoteOk, NamesOf;
  }

  lemma CloseStepOk(su: Setup, done: set<string>, s: Sys, k: string)
    requires WellHosted(su) && SysOk(su, done, s) && k in s.copies
    ensures SysOk(su, done, Put(s, k, (Close(s.copies[k]).0, {})))
  {
    hide SysOk, WellHosted, Put;
    CopyIsOk(su, done, s, k);
    assert CopyOk(su, done, Close(s.copies[k]).0);
    hide CopyOk;
    PutOk(su, done, s, k, (Close(s.copies[k]).0, {}));
  }

  lemma ForwardedIsCleared(su: Setup, done: set<string>, s: Sys, m: Msg)
    requires WellHosted(su) && SysOk(su, done, s) && m in s.net && m.ForwardedAccept?
    ensures Cleared(su, done, Bare(m.who))
  {
    hide CopyOk, Cleared;
    assert MsgOk(su, done, m);
  }

  lemma StepOk(su: Setup, done: set<string>, s: Sys, step: Step)
    requires WellHosted(su) && OriginMaySpeak(su) && SysOk(su, done, s)
    ensures SysOk(su, done + Joined(su, s, step), Next(su, s, step))
  {
    hide SysOk, WellHosted, OriginMaySpeak, Served, OnPropose, OnNotice, OnReject, AcceptAt, Put, Close, IsParticipant;
    var more := done + Joined(su, s, step);
    MoreAccepters(su, done, more, s);
    match step
    case Propose(reached) =>
      ProposeStepOk(su, more, s, reached);
    case LocalAccept(k, a, expired) =>
      LocalAcceptOk(su, done, s, k, a, expired);
    case DeliverAccept(m, expired) =>
      if m in s.net && m.ForwardedAccept? && m.dst in s.copies {
        ForwardedIsCleared(su, more, s, m);
        AcceptStepOk(su, more, s, m.dst, m.who, true, expired);
      }
    case DeliverNotice(m) =>
      NoticeStepOk(su, more, s, m);
    case LocalReject(k, a, expired) =>
      if ActsAt(su, s, k, a) {
        RejectStepOk(su, more, s, k, a, expired);
      }
    case LocalClose(k, a) =>
      if ActsAt(su, s, k, a) {
        CloseStepOk(su, more, s, k);
      }
  }

  lemma StartOk(su: Setup)
    requires WellHosted(su) && OriginMaySpeak(su)
    ensures SysOk(su, Accepters(su, []), Run(su, []))
  {
    hide Next;
  }

  lemma AcceptersGrow(su: Setup, before: seq<Step>, step: Step)
    ensures Accepters(su, before + [step]) == Accepters(su, before) + Joined(su, Run(su, before), step)
  {
    hide Served, Run;
    var steps := before + [step];
    assert steps[|before|] == step && steps[..|before|] == before;
    assert forall i | 0 <= i < |before| :: steps[i] == before[i] && steps[..i] == before[..i];
  }

  lemma {:induction false} RunOk(su: Setup, steps: seq<Step>)
    requires WellHosted(su) && OriginMaySpeak(su)
    ensures SysOk(su, Accepters(su, steps), Run(su, steps))
  {
    hide SysOk, WellHosted, OriginMaySpeak, Next, Joined, Accepters;
    if steps == [] {
      StartOk(su);
    } else {
      var before, step := steps[..|steps| - 1], steps[|steps| - 1];
      RunOk(su, before);
      StepOk(su, Accepters(su, before), Run(su, before), step);
      assert steps == before + [step];
      AcceptersGrow(su, before, step);
    }
  }

  /** Negotiation is safe in every run, whatever the order, loss or repetition of messages. */
  lemma NegotiationIsSafe(su: Setup, steps: seq<Step>)
    requires WellHosted(su) && OriginMaySpeak(su)
    ensures Safe(su, steps)
  {
    RunOk(su, steps);
    var s, done := Run(su, steps), Accepters(su, steps);
    forall k, p | k in s.copies && s.copies[k].status == Active && p in su.senders + su.receivers
      ensures p.connector in done || p.connector == su.creator
    {
      AllApprovedSpeaks(su, done, s.copies[k], p);
    }
  }
}
