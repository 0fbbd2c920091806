/** What notices and forwarded accepts bring about: exactly which approvals a notice sets, when it
    activates a copy, who is told, and how an activation spreads. */
module CrossKernelNotices {
  import opened Names
  import opened Negotiation
  import opened CrossKernel
  import E = CrossKernelExact

  ghost predicate Listed(c: Copy, id: string) {
    id in c.senders || id in c.receivers
  }

  /** The notice is an ACCEPTED one for a copy that is still proposed. */
  predicate Heard(c: Copy, m: Msg)
    requires m.Notice?
  {
    c.status == Proposed && m.says == SaysAccepted
  }

  /** After any notice a listed name is approved exactly when it was before, or when the notice is heard
      and the name is hosted by its sender. */
  lemma NoticeApprovesExactly(k: string, c: Copy, m: Msg, id: string)
    requires Consistent(c) && m.Notice? && Listed(c, id)
    ensures Approved(NoticeOnCopy(k, c, m).0, id) <==>
      Approved(c, id) || (c.status == Proposed && m.says == SaysAccepted && HasPrefix(id, m.src + ":"))
  {
    hide AddRemote, HasPrefix, AllApproved;
    if Heard(c, m) {
      assert Consistent(c.(phase := Pending));
      E.HeardApproves(c.(phase := Pending), m.src, id);
      hide HeardAccepted;
    }
  }

  /** And the copy is active exactly when it was before, or when the notice is heard and then all
      entries are set. */
  lemma NoticeActivatesExactly(k: string, c: Copy, m: Msg)
    requires Consistent(c) && m.Notice?
    ensures var d := NoticeOnCopy(k, c, m).0;
      && (d.status == Active <==>
          c.status == Active || (c.status == Proposed && m.says == SaysAccepted && AllApproved(d)))
      && (c.status == Closed ==> d.status == Closed)
      && d.phase == (if c.status == Proposed && m.says == SaysAccepted
                     then if AllApproved(d) then Accepted else Pending else c.phase)
      && d.senders == c.senders && d.receivers == c.receivers && d.creator == c.creator
  {
    hide AddRemote, AllSet, ApproveHosted;
    NamesKept(c.(phase := Pending), m.src);
  }

  lemma NamesKept(c: Copy, src: string)
    ensures var d := ApproveHosted(c, src);
      d == c.(senderApprovals := d.senderApprovals, receiverApprovals := d.receiverApprovals)
  {
  }

  /** What is missing on a copy is hosted by `src`. */
  ghost predicate LacksOnly(c: Copy, src: string)
    requires Consistent(c)
  {
    && (forall id | id in c.senders && !c.senderApprovals[id] :: HasPrefix(id, src + ":"))
    && (forall id | id in c.receivers && !c.receiverApprovals[id] :: HasPrefix(id, src + ":"))
  }

  lemma LastNoticeActivates(k: string, c: Copy, m: Msg)
    requires Consistent(c) && m.Notice? && c.status == Proposed && m.says == SaysAccepted && LacksOnly(c, m.src)
    ensures NoticeOnCopy(k, c, m).0.status == Active
  {
    hide AddRemote, HasPrefix;
    var d := ApproveHosted(c.(phase := Pending), m.src);
    assert AllApproved(d);
  }

  // ------------------------------------------------------------------------------------------
  // Who is told
  // ------------------------------------------------------------------------------------------

  /** The messages of a list are those of its names. */
  lemma {:induction false} NotifiedExactly(k: string, c: Copy, ids: seq<string>, says: NoticeStatus, m: Msg)
    ensures m in NotifyAll(k, c, ids, says) <==> exists i :: 0 <= i < |ids| && m in NotifyOne(k, c, ids[i], says)
  {
    hide NotifyOne;
    if ids != [] {
      NotifiedExactly(k, c, ids[1..], says, m);
      assert forall i | 0 <= i < |ids| - 1 :: ids[1..][i] == ids[i + 1];
      if i :| 0 <= i < |ids| && m in NotifyOne(k, c, ids[i], says) {
        assert i > 0 ==> ids[1..][i - 1] == ids[i];
      }
    }
  }

  /** A name of another kernel is told to that kernel, one of this kernel to nobody, unless the kernel is
      recorded under the very name. */
  lemma ToldExactly(k: string, c: Copy, h: string, a: string, says: NoticeStatus)
    requires !HasColon(h) && Qualify(h, a) !in c.remote
    ensures NotifyOne(k, c, Qualify(h, a), says) == if h != k then {Notice(h, k, says, a)} else {}
  {
    QualifySplits(h, a);
  }

  lemma RecordedIsTold(k: string, c: Copy, a: string, says: NoticeStatus)
    requires a in c.remote && c.remote[a] != ""
    ensures NotifyOne(k, c, a, says) == if c.remote[a] != k then {Notice(c.remote[a], k, says, a)} else {}
  {
  }

  lemma OutgoingToParticipant(su: Setup, k: string, c: Copy, ids: seq<string>, says: NoticeStatus, p: Participant)
    requires WellHosted(su) && RemoteOk(su, c.remote) && p in su.senders + su.receivers
    requires NameOf(su, p) in ids && su.home[p.connector] != k
    ensures Notice(su.home[p.connector], k, says, p.connector) in NotifyAll(k, c, ids, says)
  {
    hide NotifyAll, NotifyOne;
    ParticipantName(su, p);
    NotRecorded(su, c, p);
    ToldExactly(k, c, su.home[p.connector], p.connector, says);
    var i :| 0 <= i < |ids| && ids[i] == NameOf(su, p);
    NotifiedExactly(k, c, ids, says, Notice(su.home[p.connector], k, says, p.connector));
  }

  lemma NotRecorded(su: Setup, c: Copy, p: Participant)
    requires WellHosted(su) && RemoteOk(su, c.remote) && p in su.senders + su.receivers
    ensures !HasColon(su.home[p.connector]) && Qualify(su.home[p.connector], p.connector) !in c.remote
  {
    assert HasColon(Qualify(su.home[p.connector], p.connector));
  }

  /** A notice that activates a copy is passed on to the kernel of every participant hosted elsewhere. */
  lemma NoticeIsPassedOn(su: Setup, done: set<string>, k: string, c: Copy, m: Msg, p: Participant)
    requires WellHosted(su) && CopyOk(su, done, c) && m.Notice? && Heard(c, m)
    requires NoticeOnCopy(k, c, m).0.status == Active && p in su.senders + su.receivers && su.home[p.connector] != k
    ensures Notice(su.home[p.connector], k, SaysAccepted, p.connector) in NoticeOnCopy(k, c, m).1
  {
    hide AddRemote, AllSet, NotifyAll, NotifyOne, NamesOf, WellHosted, ApproveHosted;
    NamesKept(c.(phase := Pending), m.src);
    var d := HeardAccepted(c.(phase := Pending), m.src);
    NameIsListed(su, p);
    assert d.senders + d.receivers == NamesOf(su, su.senders) + NamesOf(su, su.receivers);
    OutgoingToParticipant(su, k, d, d.senders + d.receivers, SaysAccepted, p);
  }

  lemma NameIsListed(su: Setup, p: Participant)
    requires p in su.senders + su.receivers
    ensures NameOf(su, p) in NamesOf(su, su.senders) + NamesOf(su, su.receivers)
  {
    if p in su.senders {
      var i :| 0 <= i < |su.senders| && su.senders[i] == p;
      assert NamesOf(su, su.senders)[i] == NameOf(su, p);
    } else {
      var i :| 0 <= i < |su.receivers| && su.receivers[i] == p;
      assert NamesOf(su, su.receivers)[i] == NameOf(su, p);
    }
  }

  /** A copy knows the kernel of every participant once it has learned its lists. */
  lemma KernelsAreLearned(su: Setup, c: Copy, p: Participant)
    requires WellHosted(su) && RemoteOk(su, c.remote) && p in su.senders + su.receivers
    requires c.senders == NamesOf(su, su.senders) && c.receivers == NamesOf(su, su.receivers)
    ensures p.connector in LearnKernels(c).remote && LearnKernels(c).remote[p.connector] == su.home[p.connector]
  {
    hide NamesOf, WellHosted, RemoteOk;
    LearnKernelsOk(su, c);
    ParticipantName(su, p);
    NameIsListed(su, p);
    var once := AddRemote(c.remote, c.receivers);
    LearnedIsKnown(c.remote, c.receivers, NameOf(su, p));
    LearnedIsKnown(once, c.senders, NameOf(su, p));
    hide AddRemote;
    RecordedAtHome(su, LearnKernels(c).remote, p.connector);
  }

  lemma RecordedAtHome(su: Setup, remote: map<string, string>, a: string)
    requires RemoteOk(su, remote) && a in remote
    ensures a in su.home && remote[a] == su.home[a]
  {
  }

  lemma {:induction false} LearnedIsKnown(remote: map<string, string>, ids: seq<string>, id: string)
    requires HasColon(id)
    ensures remote.Keys <= AddRemote(remote, ids).Keys
    ensures id in ids ==> ConnectorOf(id) in AddRemote(remote, ids)
  {
    if ids != [] {
      LearnedIsKnown(remote, ids[..|ids| - 1], id);
      assert ids == ids[..|ids| - 1] + [ids[|ids| - 1]];
    }
  }

  // ------------------------------------------------------------------------------------------
  // Accepts and activations spread
  // ------------------------------------------------------------------------------------------

  /** A connector's accept that its kernel serves is forwarded, under the connector's qualified name, to every
      other kernel; and when the copy is then complete, every other kernel is told so. */
  lemma AcceptIsPassedOn(su: Setup, s: Sys, k: string, a: string, expired: bool, j: string)
    requires ActsAt(su, s, k, a) && Consistent(s.copies[k]) && j in su.kernels && j != k
    requires ServeAccept(k, s.copies[k], a, expired).1 == Done
    ensures var t := Next(su, s, LocalAccept(k, a, expired));
      && ForwardedAccept(j, Qualify(k, a)) in t.net
      && (t.copies[k].status == Active ==> Notice(j, k, SaysAccepted, Bare(s.copies[k].creator)) in t.net)
  {
    hide AcceptAt, ServeAccept, Consistent, Bare, Qualify;
    AcceptSends(su, k, s.copies[k], a, expired, j);
  }

  lemma AcceptSends(su: Setup, k: string, c: Copy, a: string, expired: bool, j: string)
    requires Consistent(c) && j in su.kernels && j != k && ServeAccept(k, c, a, expired).1 == Done
    ensures var (d, ms) := AcceptAt(su, k, c, a, false, expired);
      && ForwardedAccept(j, Qualify(k, a)) in ms
      && (d.status == Active ==> Notice(j, k, SaysAccepted, Bare(c.creator)) in ms)
  {
    hide ServeAccept, Consistent, Bare, Qualify, ForwardMsgs, ActivationMsgs, Recheck, AllApproved, AddRemote;
    var d := ServeAccept(k, c, a, expired).0;
    AcceptActivatesExactly(k, c, a, expired);
    AcceptKeepsCreator(k, c, a, expired);
    EveryKernelIsSent(su, k, d, a, j);
  }

  lemma EveryKernelIsSent(su: Setup, k: string, d: Copy, a: string, j: string)
    requires j in su.kernels && j != k
    ensures ForwardedAccept(j, Qualify(k, a)) in ForwardMsgs(su, k, a)
    ensures Notice(j, k, SaysAccepted, Bare(d.creator)) in ActivationMsgs(su, k, d)
  {
    hide Bare, Qualify, NotifyAll;
  }

  lemma AcceptKeepsCreator(k: string, c: Copy, who: string, expired: bool)
    ensures ServeAccept(k, c, who, expired).0.creator == c.creator
  {
    hide Candidates, ReadyToActivate;
  }

  /** An activation spreads: when a served accept leaves its kernel's copy active, delivering the notice it
      sends to another kernel, whose proposed copy lacks only names hosted by the first, activates that
      copy as well. */
  lemma ActivationSpreads(su: Setup, s: Sys, k: string, a: string, expired: bool, j: string)
    requires ActsAt(su, s, k, a) && Consistent(s.copies[k]) && j in su.kernels && j != k
    requires ServeAccept(k, s.copies[k], a, expired).1 == Done
    requires Next(su, s, LocalAccept(k, a, expired)).copies[k].status == Active
    requires j in s.copies && Consistent(s.copies[j]) && s.copies[j].status == Proposed && LacksOnly(s.copies[j], k)
    ensures var t := Next(su, s, LocalAccept(k, a, expired));
      var u := Next(su, t, DeliverNotice(Notice(j, k, SaysAccepted, Bare(s.copies[k].creator))));
      j in u.copies && u.copies[j].status == Active
  {
    hide AcceptAt, NoticeOnCopy, ServeAccept, Consistent, LacksOnly;
    AcceptIsPassedOn(su, s, k, a, expired, j);
    var m := Notice(j, k, SaysAccepted, Bare(s.copies[k].creator));
    LastNoticeActivates(j, s.copies[j], m);
  }

  /** A kernel without a copy builds one from the sender's: the same lists, and approvals exactly for the
      creator's own names and, on an ACCEPTED notice, for the names hosted by its sender. */
  lemma PlaceholderExactly(su: Setup, k: string, fetched: Copy, m: Msg, id: string)
    requires WellHosted(su) && m.Notice? && m.says != SaysRejected
    requires fetched.senders == NamesOf(su, su.senders) && fetched.receivers == NamesOf(su, su.receivers)
    requires Listed(fetched, id)
    ensures var d := NoticeOnNothing(k, fetched, m).0;
      && d.senders == fetched.senders && d.receivers == fetched.receivers && d.creator == fetched.creator
      && (Approved(d, id) <==>
            NamesCreator(id, fetched.creator) || (m.says == SaysAccepted && HasPrefix(id, m.src + ":")))
      && (d.status == Active <==> m.says == SaysAccepted && AllApproved(d))
  {
    FetchKeepsNames(su, m.src, su.senders);
    FetchKeepsNames(su, m.src, su.receivers);
    hide FetchedNames, NamesOf, WellHosted, AddRemote, AddForeign, HasPrefix, NamesCreator;
    var c := LearnKernels(ProposedCopy(fetched.creator, fetched.creator, fetched.senders, fetched.receivers,
                                       AddForeign(AddForeign(map[], k, fetched.senders), k, fetched.receivers)));
    assert Consistent(c) && (Approved(c, id) <==> NamesCreator(id, fetched.creator));
    E.HeardApproves(c, m.src, id);
    NamesKept(c, m.src);
    hide ApproveHosted, InitialApprovals, AllApproved, Consistent, Approved;
  }

  /** An accept spreads: served at its own kernel, it approves the connector's name there, and forwarded to
      another kernel, whose copy is neither active nor rejected, it approves the name there too, in time. A
      forwarded accept is not forwarded again. */
  lemma AcceptSpreads(su: Setup, s: Sys, k: string, a: string, j: string)
    requires ActsAt(su, s, k, a) && !HasColon(a) && k != "" && Awaits(s.copies[k], Qualify(k, a))
    requires j in su.kernels && j != k && j in s.copies && Awaits(s.copies[j], Qualify(k, a))
    ensures var t := Next(su, s, LocalAccept(k, a, false));
      var u := Next(su, t, DeliverAccept(ForwardedAccept(j, Qualify(k, a)), false));
      && k in t.copies && Approved(t.copies[k], Qualify(k, a)) && ForwardedAccept(j, Qualify(k, a)) in t.net
      && j in u.copies && Approved(u.copies[j], Qualify(k, a))
      && forall m | m in u.net && m.ForwardedAccept? :: m in t.net
  {
    hide AcceptAt, Qualify, Consistent, Listed, Approved, ServeAccept, HasColon;
    AcceptApproves(su, k, s.copies[k], a, k, a, false);
    AcceptIsPassedOn(su, s, k, a, false, j);
    var t := Next(su, s, LocalAccept(k, a, false));
    assert t == Put(s, k, AcceptAt(su, k, s.copies[k], a, false, false));
    assert t.copies[j] == s.copies[j];
    ForwardedApproves(su, t, j, k, a);
  }

  /** The copy may still be accepted and lists the name. */
  ghost predicate Awaits(c: Copy, id: string) {
    Consistent(c) && Listed(c, id) && c.status != Active && c.phase != Rejected
  }

  lemma ForwardedApproves(su: Setup, t: Sys, j: string, k: string, a: string)
    requires !HasColon(a) && j in t.copies && Awaits(t.copies[j], Qualify(k, a))
    requires ForwardedAccept(j, Qualify(k, a)) in t.net
    ensures var u := Next(su, t, DeliverAccept(ForwardedAccept(j, Qualify(k, a)), false));
      && j in u.copies && Approved(u.copies[j], Qualify(k, a))
      && forall m | m in u.net && m.ForwardedAccept? :: m in t.net
  {
    hide AcceptAt, Qualify, Consistent, Listed, Approved, ServeAccept, HasColon;
    AcceptApproves(su, j, t.copies[j], Qualify(k, a), k, a, true);
  }

  lemma AcceptApproves(su: Setup, k: string, c: Copy, who: string, h: string, a: string, forwarded: bool)
    requires !HasColon(a) && Consistent(c) && Listed(c, Qualify(h, a)) && c.status != Active && c.phase != Rejected
    requires who == Qualify(h, a) || (who == a && h == k != "")
    ensures ServeAccept(k, c, who, false).1 == Done
    ensures var (d, ms) := AcceptAt(su, k, c, who, forwarded, false);
      Approved(d, Qualify(h, a)) && (forwarded ==> forall m | m in ms :: m.Notice?)
  {
    hide Candidates, ServeAccept, Recheck, AddRemote, NotifyAll, Consistent, Listed;
    var name := Qualify(h, a);
    QualifyIs(h, a);
    AcceptSpeaksFor(k, c.remote, h, a, name);
    ListedIsListed(c, name);
    AcceptExactly(k, c, who, false, name);
    var d := ServeAccept(k, c, who, false).0;
    var outsider := if d.creator in d.senders || d.creator in d.receivers then [] else [d.creator];
    forall m | m in NotifyAll(k, d, d.senders + d.receivers + outsider, SaysAccepted)
      ensures m.Notice?
    {
      NotifyAllFrom(k, d, d.senders + d.receivers + outsider, SaysAccepted, m);
    }
  }

  lemma ListedIsListed(c: Copy, id: string)
    ensures Listed(c, id) <==> id in c.senders + c.receivers
  {
  }

  /** Whoever a notice was for is answered with the state of the copy, at the kernel where the copy then
      knows it to be. */
  lemma NoticeIsAnswered(k: string, c: Copy, m: Msg)
    requires m.Notice?
    ensures var (d, ms) := NoticeOnCopy(k, c, m);
      m.receiver in d.remote && d.remote[m.receiver] != "" && d.remote[m.receiver] != k ==>
        Notice(d.remote[m.receiver], k, if d.status == Active then SaysAccepted else SaysProposed, m.receiver) in ms
  {
    hide AddRemote, HeardAccepted, NotifyAll;
  }

  /** A valid request gives the origin a copy whose names are written `kernel:connector`, the origin's own
      where the request leaves the kernel open, and sends ACCEPTED to exactly the reached participants that are
      named at another kernel. Nothing else is sent. */
  lemma ProposalExactly(su: Setup, reached: set<string>, m: Msg)
    requires ValidProposal(su.creator, NamesOf(su, su.senders), NamesOf(su, su.receivers))
    ensures var s := Next(su, Sys(map[], {}), Propose(reached));
      && s.copies.Keys == {su.origin}
      && var c := s.copies[su.origin];
         && c.creator == su.creator && c.status == Proposed && c.phase == Pending
         && WrittenAs(su, c.senders, su.senders) && WrittenAs(su, c.receivers, su.receivers)
         && (m in s.net <==>
              && m.Notice? && m.src == su.origin && m.says == SaysAccepted
              && m.dst != "" && m.dst != su.origin && m.dst in reached && m.receiver != ""
              && Participant(m.dst, m.receiver) in su.senders + su.receivers)
  {
    hide AddRemote, InitialApprovals, ValidProposal;
    if m.Notice? && Participant(m.dst, m.receiver) in su.senders + su.receivers {
      assert Participant(m.dst, m.receiver).kernel == m.dst && Participant(m.dst, m.receiver).connector == m.receiver;
    }
  }

  predicate WrittenAs(su: Setup, ids: seq<string>, ps: seq<Participant>) {
    && |ids| == |ps|
    && forall i | 0 <= i < |ps| ::
         ids[i] == (if ps[i].kernel == "" then su.origin else ps[i].kernel) + ":" + ps[i].connector
  }

  /** A participant closes its own kernel's copy, and nothing else changes anywhere. */
  lemma CloseIsLocal(su: Setup, s: Sys, k: string, a: string)
    ensures var t := Next(su, s, LocalClose(k, a));
      && t.net == s.net && t.copies.Keys == s.copies.Keys
      && (forall j | j in s.copies && j != k :: t.copies[j] == s.copies[j])
      && (k in s.copies ==>
            t.copies[k] == if a in su.home && su.home[a] == k && CrossKernel.IsParticipant(s.copies[k], a)
                           then s.copies[k].(status := Closed) else s.copies[k])
  {
    hide CrossKernel.IsParticipant;
  }

  /** When a served accept completes the copy, the kernel of every participant hosted elsewhere is told for
      that participant, and so is the kernel at which the copy has recorded a creator that is not listed. */
  lemma ActivationTells(su: Setup, done: set<string>, k: string, c: Copy, p: Participant)
    requires WellHosted(su) && CopyOk(su, done, c)
    ensures p in su.senders + su.receivers && su.home[p.connector] != k ==>
      Notice(su.home[p.connector], k, SaysAccepted, p.connector) in ActivationMsgs(su, k, c)
    ensures c.creator !in c.senders + c.receivers && c.creator in c.remote && c.remote[c.creator] !in {"", k} ==>
      Notice(c.remote[c.creator], k, SaysAccepted, c.creator) in ActivationMsgs(su, k, c)
  {
    hide NotifyAll, NotifyOne, NamesOf, AddRemote, Consistent;
    var outsider := if c.creator in c.senders || c.creator in c.receivers then [] else [c.creator];
    var ids := c.senders + c.receivers + outsider;
    if p in su.senders + su.receivers && su.home[p.connector] != k {
      NameIsListed(su, p);
      OutgoingToParticipant(su, k, c, ids, SaysAccepted, p);
    }
    if c.creator !in c.senders + c.receivers && c.creator in c.remote && c.remote[c.creator] !in {"", k} {
      RecordedIsTold(k, c, c.creator, SaysAccepted);
      assert ids[|ids| - 1] == c.creator;
      NotifiedExactly(k, c, ids, SaysAccepted, Notice(c.remote[c.creator], k, SaysAccepted, c.creator));
    }
  }

  /** How a name fetched from kernel `src` is written: a bare one is qualified with that kernel, one with an
      empty kernel loses its colon, and any other stays. */
  lemma FetchedNameExactly(src: string, k: string, a: string)
    ensures !HasColon(a) ==> FetchedName(src, a) == src + ":" + a
    ensures FetchedName(src, ":" + a) == a
    ensures !HasColon(k) && k != "" ==> FetchedName(src, k + ":" + a) == k + ":" + a
  {
    QualifySplits("", a);
    assert "" + ":" + a == ":" + a;
    if !HasColon(k) {
      QualifySplits(k, a);
    }
  }

  /** A kernel that learns of a channel by a REJECTED notice keeps a closed and rejected copy. */
  lemma RejectedPlaceholder(k: string, fetched: Copy, m: Msg)
    requires m.Notice? && m.says == SaysRejected
    ensures var d := NoticeOnNothing(k, fetched, m).0; d.status == Closed && d.phase == Rejected
  {
    hide AddRemote, AddForeign, FetchedNames, InitialApprovals;
  }

  /** A rejection in time, by a name that the kernel's proposed copy lists, closes that copy, and the kernels at
      which the copy has recorded the creator or a sender are told. */
  lemma RejectionIsTold(su: Setup, s: Sys, k: string, a: string, id: string)
    requires ActsAt(su, s, k, a) && s.copies[k].status == Proposed && a in s.copies[k].senders + s.copies[k].receivers
    ensures var t, c := Next(su, s, LocalReject(k, a, false)), s.copies[k];
      && k in t.copies && t.copies[k] == c.(status := Closed, phase := Rejected)
      && (id in [c.creator] + c.senders && id in c.remote && c.remote[id] !in {"", k} ==>
            Notice(c.remote[id], k, SaysRejected, id) in t.net)
  {
    hide NotifyAll;
    var c := s.copies[k];
    var d := Reject(c, a, false).0;
    var ids := [d.creator] + d.senders;
    if id in ids && id in c.remote && c.remote[id] !in {"", k} {
      RecordedIsTold(k, d, id, SaysRejected);
      var i :| 0 <= i < |ids| && ids[i] == id;
      NotifiedExactly(k, d, ids, SaysRejected, Notice(c.remote[id], k, SaysRejected, id));
    }
  }
}
