/** Nobody can reject a channel between kernels. Every copy lists its participants by qualified names, a
    connector rejects under its bare name, and the rejection compares literally. */
module CrossKernelReject {
  import opened Names
  import opened Negotiation
  import opened CrossKernel

  predicate NoneSaysRejected(ms: set<Msg>) {
    forall m | m in ms && m.Notice? :: m.says != SaysRejected
  }

  ghost predicate Unrejected(su: Setup, c: Copy) {
    c.senders == NamesOf(su, su.senders) && c.receivers == NamesOf(su, su.receivers) && c.phase != Rejected
  }

  ghost predicate AllUnrejected(su: Setup, s: Sys) {
    (forall k | k in s.copies :: Unrejected(su, s.copies[k])) && NoneSaysRejected(s.net)
  }

  lemma PutUnrejected(su: Setup, s: Sys, k: string, r: (Copy, set<Msg>))
    requires AllUnrejected(su, s) && Unrejected(su, r.0) && NoneSaysRejected(r.1)
    ensures AllUnrejected(su, Put(s, k, r))
  {
    hide Unrejected;
  }

  lemma NotifyUnrejected(k: string, c: Copy, ids: seq<string>, id: string, says: NoticeStatus)
    requires says != SaysRejected
    ensures NoneSaysRejected(NotifyAll(k, c, ids, says)) && NoneSaysRejected(NotifyOne(k, c, id, says))
  {
    forall m | m in NotifyAll(k, c, ids, says)
      ensures m.Notice? && m.says == says
    {
      NotifyAllFrom(k, c, ids, says, m);
    }
  }

  /** An accept changes neither the lists nor, to rejected, the phase. */
  lemma AcceptUnrejected(su: Setup, k: string, c: Copy, who: string, forwarded: bool, expired: bool)
    requires Unrejected(su, c)
    ensures var r := AcceptAt(su, k, c, who, forwarded, expired); Unrejected(su, r.0) && NoneSaysRejected(r.1)
  {
    hide Candidates, ReadyToActivate, Recheck, NamesOf, AddRemote;
    var d := ServeAccept(k, c, who, expired).0;
    assert d.senders == c.senders && d.receivers == c.receivers && d.phase != Rejected;
    hide ServeAccept;
    var outsider := if d.creator in d.senders || d.creator in d.receivers then [] else [d.creator];
    NotifyUnrejected(k, d, d.senders + d.receivers + outsider, "", SaysAccepted);
    hide NotifyAll;
  }

  lemma NoticeUnrejected(su: Setup, k: string, c: Copy, m: Msg)
    requires Unrejected(su, c) && m.Notice?
    ensures var r := NoticeOnCopy(k, c, m); Unrejected(su, r.0) && NoneSaysRejected(r.1)
  {
    hide AllApproved, NamesOf, AddRemote, NotifyAll, NotifyOne;
    var heard := c.status == Proposed && m.says == SaysAccepted;
    var d := if heard then HeardAccepted(c.(phase := Pending), m.src) else c;
    var e := LearnKernels(d);
    NotifyUnrejected(k, d, d.senders + d.receivers, m.receiver, SaysAccepted);
    NotifyUnrejected(k, e, [], m.receiver, SaysAccepted);
    NotifyUnrejected(k, e, [], m.receiver, SaysProposed);
  }

  lemma PlaceholderUnrejected(su: Setup, k: string, fetched: Copy, m: Msg)
    requires WellHosted(su) && Unrejected(su, fetched) && m.Notice? && m.says != SaysRejected
    ensures var r := NoticeOnNothing(k, fetched, m); Unrejected(su, r.0) && NoneSaysRejected(r.1)
  {
    FetchKeepsNames(su, m.src, su.senders);
    FetchKeepsNames(su, m.src, su.receivers);
    hide AllApproved, NamesOf, AddRemote, AddForeign, NotifyAll, NotifyOne, FetchedNames, InitialApprovals, WellHosted;
    var d := NoticeOnNothing(k, fetched, m).0;
    NotifyUnrejected(k, d, d.senders + d.receivers, m.receiver, SaysAccepted);
    NotifyUnrejected(k, d, [], m.receiver, SaysProposed);
  }

  /** The lists hold qualified names only. */
  lemma NamesAreQualified(su: Setup, ps: seq<Participant>, a: string)
    requires !HasColon(a)
    ensures a !in NamesOf(su, ps)
  {
    forall i | 0 <= i < |ps|
      ensures NamesOf(su, ps)[i] != a
    {
      assert HasColon(NameOf(su, ps[i]));
    }
  }

  lemma RejectRefused(su: Setup, c: Copy, a: string, expired: bool)
    requires Unrejected(su, c) && !HasColon(a)
    ensures Reject(c, a, expired) == (c, Refused(if c.status != Proposed then NotProposed else NotParticipant))
  {
    NamesAreQualified(su, su.senders, a);
    NamesAreQualified(su, su.receivers, a);
  }

  lemma StepUnrejected(su: Setup, s: Sys, step: Step)
    requires WellHosted(su) && AllUnrejected(su, s)
    ensures AllUnrejected(su, Next(su, s, step))
    ensures step.LocalReject? ==> Next(su, s, step) == s
  {
    hide Unrejected, NoticeOnCopy, NoticeOnNothing, AcceptAt, ProposeAt, Put, NamesOf, ValidProposal;
    match step
    case Propose(reached) =>
      ProposeUnrejected(su, reached);
      PutUnrejected(su, s, su.origin, ProposeAt(su, reached));
    case LocalAccept(k, a, expired) =>
      if ActsAt(su, s, k, a) {
        AcceptUnrejected(su, k, s.copies[k], a, false, expired);
        PutUnrejected(su, s, k, AcceptAt(su, k, s.copies[k], a, false, expired));
      }
    case DeliverAccept(m, expired) =>
      if m in s.net && m.ForwardedAccept? && m.dst in s.copies {
        AcceptUnrejected(su, m.dst, s.copies[m.dst], m.who, true, expired);
        PutUnrejected(su, s, m.dst, AcceptAt(su, m.dst, s.copies[m.dst], m.who, true, expired));
      }
    case DeliverNotice(m) =>
      NoticeStepUnrejected(su, s, m);
    case LocalReject(k, a, expired) =>
      if ActsAt(su, s, k, a) {
        RejectRefused(su, s.copies[k], a, expired);
      }
    case LocalClose(k, a) =>
      if ActsAt(su, s, k, a) && CrossKernel.IsParticipant(s.copies[k], a) {
        CloseUnrejected(su, s.copies[k]);
        PutUnrejected(su, s, k, (Close(s.copies[k]).0, {}));
      }
  }

  lemma CloseUnrejected(su: Setup, c: Copy)
    requires Unrejected(su, c)
    ensures Unrejected(su, Close(c).0)
  {
  }

  lemma ProposeUnrejected(su: Setup, reached: set<string>)
    ensures Unrejected(su, ProposeAt(su, reached).0) && NoneSaysRejected(ProposeAt(su, reached).1)
  {
    hide NamesOf, AddRemote, InitialApprovals;
  }

  lemma NoticeStepUnrejected(su: Setup, s: Sys, m: Msg)
    requires WellHosted(su) && AllUnrejected(su, s)
    ensures AllUnrejected(su, OnNotice(su, s, m))
  {
    hide Unrejected, NoticeOnCopy, NoticeOnNothing, WellHosted, Put;
    if m in s.net && m.Notice? && m.dst in su.kernels {
      if m.dst in s.copies {
        NoticeUnrejected(su, m.dst, s.copies[m.dst], m);
        PutUnrejected(su, s, m.dst, NoticeOnCopy(m.dst, s.copies[m.dst], m));
      } else if m.src in s.copies {
        PlaceholderUnrejected(su, m.dst, s.copies[m.src], m);
        PutUnrejected(su, s, m.dst, NoticeOnNothing(m.dst, s.copies[m.src], m));
      }
    }
  }

  /** In every run, whoever tries: no copy is ever rejected, no notice ever says so, and a connector's
      rejection changes nothing. No participant can refuse a channel between kernels; it can only not
      accept. */
  lemma {:induction false} NobodyCanReject(su: Setup, steps: seq<Step>)
    requires WellHosted(su)
    ensures AllUnrejected(su, Run(su, steps))
    ensures forall k, a, expired :: Next(su, Run(su, steps), LocalReject(k, a, expired)) == Run(su, steps)
  {
    hide AllUnrejected, WellHosted, Next;
    if steps == [] {
      StartUnrejected(su);
    } else {
      NobodyCanReject(su, steps[..|steps| - 1]);
      StepUnrejected(su, Run(su, steps[..|steps| - 1]), steps[|steps| - 1]);
    }
    forall k, a, expired
      ensures Next(su, Run(su, steps), LocalReject(k, a, expired)) == Run(su, steps)
    {
      StepUnrejected(su, Run(su, steps), LocalReject(k, a, expired));
    }
  }

  lemma StartUnrejected(su: Setup)
    ensures AllUnrejected(su, Run(su, []))
  {
  }
}
