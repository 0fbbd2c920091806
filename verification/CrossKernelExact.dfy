/** When cross-kernel negotiation is safe in every run: exactly when the origin kernel hosts no
    participant but the creator, or hosts them all. The other direction is a construction: for any
    other request there is a run that activates a copy without asking one of the participants. */
module CrossKernelExact {
  import opened Names
  import opened Negotiation
  import opened CrossKernel

  // ------------------------------------------------------------------------------------------
  // Runs in which nobody rejects or closes: copies keep their shape and approvals only grow
  // ------------------------------------------------------------------------------------------

  ghost predicate Shape(su: Setup, c: Copy) {
    && c.creator == su.creator
    && c.senders == NamesOf(su, su.senders)
    && c.receivers == NamesOf(su, su.receivers)
    && Consistent(c)
    && c.status != Closed && c.phase != Rejected
  }

  /** Nothing approved in `c` is unapproved in `d`. */
  ghost predicate Keeps(c: Copy, d: Copy) {
    forall id | Approved(c, id) :: Approved(d, id)
  }

  /** Everything listed that `kernel` hosts is approved. */
  ghost predicate ApprovesHosted(su: Setup, c: Copy, kernel: string) {
    forall id | Listed(su, id) && HasPrefix(id, kernel + ":") :: Approved(c, id)
  }

  ghost predicate Listed(su: Setup, id: string) {
    id in NamesOf(su, su.senders) || id in NamesOf(su, su.receivers)
  }

  lemma ListedIsKeyed(su: Setup, c: Copy, id: string)
    requires Shape(su, c) && Listed(su, id)
    ensures id in c.senderApprovals || id in c.receiverApprovals
    ensures AllApproved(c) ==> Approved(c, id)
  {
  }

  lemma AcceptKeepsPhase(k: string, c: Copy, who: string)
    ensures var d := ServeAccept(k, c, who, false).0;
            && d.creator == c.creator && d.senders == c.senders && d.receivers == c.receivers
            && (c.status != Closed ==> d.status != Closed) && (c.phase != Rejected ==> d.phase != Rejected)
  {
    hide Candidates, ReadyToActivate;
  }

  lemma AcceptGrows(su: Setup, k: string, c: Copy, who: string, forwarded: bool)
    requires Shape(su, c)
    ensures Shape(su, AcceptAt(su, k, c, who, forwarded, false).0)
    ensures Keeps(c, AcceptAt(su, k, c, who, forwarded, false).0)
  {
    var d := ServeAccept(k, c, who, false).0;
    AcceptActivatesExactly(k, c, who, false);
    AcceptKeepsPhase(k, c, who);
    hide ServeAccept, Consistent, ActivationMsgs, Recheck;
    forall id | Approved(c, id)
      ensures Approved(d, id)
    {
      AcceptSetsOnlyOwnEntries(k, c, who, false, id);
    }
  }

  /** An accept that names a listed entry succeeds, approves it, and is passed on. */
  lemma AcceptReaches(su: Setup, k: string, c: Copy, who: string, id: string)
    requires Shape(su, c) && Listed(su, id) && id in Candidates(k, c.remote, who)
    ensures ServeAccept(k, c, who, false).1 == Done
    ensures Approved(ServeAccept(k, c, who, false).0, id)
  {
    ListedIsKeyed(su, c, id);
    MarkedAreApproved(c, Candidates(k, c.remote, who), id);
  }

  lemma HeardApproves(c: Copy, src: string, id: string)
    requires Consistent(c)
    ensures Approved(HeardAccepted(c, src), id) <==>
            Approved(c, id) || ((id in c.senders || id in c.receivers) && HasPrefix(id, src + ":"))
  {
    assert id in c.senders <==> id in c.senderApprovals;
    assert id in c.receivers <==> id in c.receiverApprovals;
  }

  lemma HeardGrows(su: Setup, c: Copy, src: string)
    requires Shape(su, c)
    ensures Shape(su, HeardAccepted(c, src))
    ensures Keeps(c, HeardAccepted(c, src))
    ensures ApprovesHosted(su, HeardAccepted(c, src), src)
  {
    HeardAcceptedConsistent(c, src);
    var d := HeardAccepted(c, src);
    assert d.creator == c.creator && d.senders == c.senders && d.receivers == c.receivers;
    assert d.status != Closed && d.phase != Rejected;
    hide HeardAccepted, Consistent, Approved, HasPrefix;
    forall id
      ensures Approved(c, id) ==> Approved(d, id)
      ensures Listed(su, id) && HasPrefix(id, src + ":") ==> Approved(d, id)
    {
      HeardApproves(c, src, id);
    }
  }

  lemma NoticeGrows(su: Setup, k: string, c: Copy, m: Msg)
    requires Shape(su, c) && m.Notice?
    ensures Shape(su, NoticeOnCopy(k, c, m).0)
    ensures Keeps(c, NoticeOnCopy(k, c, m).0)
  {
    hide HeardAccepted;
    if c.status == Proposed && m.says == SaysAccepted {
      HeardGrows(su, c.(phase := Pending), m.src);
      assert Keeps(c, c.(phase := Pending));
    }
  }

  lemma PlaceholderShape(su: Setup, k: string, fetched: Copy, m: Msg)
    requires WellHosted(su) && Shape(su, fetched) && m.Notice? && m.says == SaysAccepted
    ensures Shape(su, NoticeOnNothing(k, fetched, m).0)
    ensures ApprovesHosted(su, NoticeOnNothing(k, fetched, m).0, m.src)
  {
    FetchKeepsNames(su, m.src, su.senders);
    FetchKeepsNames(su, m.src, su.receivers);
    PlaceholderOk(su, {}, k);
    var senders, receivers := NamesOf(su, su.senders), NamesOf(su, su.receivers);
    HeardGrows(su, LearnKernels(ProposedCopy(su.creator, su.creator, senders, receivers,
                                AddForeign(AddForeign(map[], k, senders), k, receivers))), m.src);
  }

  // ------------------------------------------------------------------------------------------
  // The run
  // ------------------------------------------------------------------------------------------

  ghost predicate Bad(su: Setup)
    requires WellHosted(su)
  {
    ValidProposal(su.creator, NamesOf(su, su.senders), NamesOf(su, su.receivers)) && !OriginMaySpeak(su)
  }

  /** The origin's announcement to the kernel of participant `r`. */
  function Announcement(su: Setup, r: Participant): Msg
    requires r.connector in su.home
  {
    Notice(su.home[r.connector], su.origin, SaysAccepted, r.connector)
  }

  ghost predicate Remote(su: Setup, r: Participant)
    requires WellHosted(su)
  {
    r in su.senders + su.receivers && su.home[r.connector] != su.origin
  }

  /** Kernel `k` and the origin have copies, the announcements are out, all copies have their shape. */
  ghost predicate Ready(su: Setup, s: Sys, k: string)
    requires WellHosted(su)
  {
    && su.origin in s.copies && k in s.copies
    && (forall kk | kk in s.copies :: Shape(su, s.copies[kk]))
    && (forall r | Remote(su, r) :: Announcement(su, r) in s.net)
  }

  ghost predicate Grown(s: Sys, t: Sys, k: string)
    requires k in s.copies
  {
    s.net <= t.net && s.copies.Keys <= t.copies.Keys && Keeps(s.copies[k], t.copies[k])
  }

  lemma PutKeepsReady(su: Setup, s: Sys, k: string, at: string, r: (Copy, set<Msg>))
    requires WellHosted(su) && Ready(su, s, k) && Shape(su, r.0)
    requires at in s.copies ==> Keeps(s.copies[at], r.0)
    ensures Ready(su, Put(s, at, r), k) && Grown(s, Put(s, at, r), k)
  {
  }

  lemma HearStep(su: Setup, s: Sys, k: string, r: Participant)
    requires WellHosted(su) && Ready(su, s, k) && Remote(su, r) && su.creator != ""
    requires su.senders != [] && su.receivers != []
    ensures var t := OnNotice(su, s, Announcement(su, r));
            Ready(su, t, k) && Grown(s, t, k) && su.home[r.connector] in t.copies
  {
    var m := Announcement(su, r);
    var c := s.copies[su.origin];
    assert c.creator == su.creator && |c.senders| == |su.senders| && |c.receivers| == |su.receivers|;
    hide Shape, Keeps, NoticeOnCopy, NoticeOnNothing;
    if m.dst in s.copies {
      NoticeGrows(su, m.dst, s.copies[m.dst], m);
      PutKeepsReady(su, s, k, m.dst, NoticeOnCopy(m.dst, s.copies[m.dst], m));
    } else {
      PlaceholderShape(su, m.dst, s.copies[su.origin], m);
      PutKeepsReady(su, s, k, m.dst, NoticeOnNothing(m.dst, s.copies[su.origin], m));
    }
  }

  lemma NameIsCandidate(su: Setup, r: Participant, remote: map<string, string>, k: string)
    requires WellHosted(su) && r in su.senders + su.receivers
    ensures Listed(su, NameOf(su, r))
    ensures NameOf(su, r) in Candidates(su.home[r.connector], remote, r.connector)
    ensures NameOf(su, r) in Candidates(k, remote, NameOf(su, r))
    ensures NameOf(su, r) == Qualify(su.home[r.connector], r.connector)
  {
    ParticipantName(su, r);
    if r in su.senders {
      var i :| 0 <= i < |su.senders| && su.senders[i] == r;
      assert NamesOf(su, su.senders)[i] == NameOf(su, r);
    } else {
      var i :| 0 <= i < |su.receivers| && su.receivers[i] == r;
      assert NamesOf(su, su.receivers)[i] == NameOf(su, r);
    }
  }

  lemma LocalStep(su: Setup, s: Sys, k: string, r: Participant)
    requires WellHosted(su) && Ready(su, s, k) && Remote(su, r) && su.home[r.connector] in s.copies && k in su.kernels
    ensures var h := su.home[r.connector];
            var t := OnLocalAccept(su, s, h, r.connector, false);
            && Ready(su, t, k) && Grown(s, t, k)
            && (if h == k then Approved(t.copies[k], NameOf(su, r))
                else ForwardedAccept(k, NameOf(su, r)) in t.net)
  {
    var h := su.home[r.connector];
    var c := s.copies[h];
    hide Shape, Keeps, Candidates, ServeAccept, ActivationMsgs, LearnKernels, Recheck, Approved;
    AcceptGrows(su, h, c, r.connector, false);
    NameIsCandidate(su, r, c.remote, k);
    AcceptReaches(su, h, c, r.connector, NameOf(su, r));
    PutKeepsReady(su, s, k, h, AcceptAt(su, h, c, r.connector, false, false));
    if h != k {
      assert ForwardedAccept(k, Qualify(h, r.connector)) in ForwardMsgs(su, h, r.connector);
    }
  }

  lemma PassStep(su: Setup, s: Sys, k: string, r: Participant)
    requires WellHosted(su) && Ready(su, s, k) && Remote(su, r)
    ensures var t := OnForwardedAccept(su, s, ForwardedAccept(k, NameOf(su, r)), false);
            && Ready(su, t, k) && Grown(s, t, k)
            && (ForwardedAccept(k, NameOf(su, r)) in s.net ==> Approved(t.copies[k], NameOf(su, r)))
  {
    hide Shape, Keeps, Candidates, WellHosted, AcceptAt, Put, Grown, Approved;
    var c := s.copies[k];
    var m, done := ForwardedAccept(k, NameOf(su, r)), AcceptAt(su, k, c, NameOf(su, r), true, false);
    AcceptGrows(su, k, c, NameOf(su, r), true);
    NameIsCandidate(su, r, c.remote, k);
    AcceptAtReaches(su, k, c, NameOf(su, r));
    PutKeepsReady(su, s, k, k, done);
    PutHas(s, k, done);
    GrownRefl(s, k);
    hide NameOf, Ready;
    assert m in s.net ==> OnForwardedAccept(su, s, m, false) == Put(s, k, done);
  }

  lemma PutHas(s: Sys, k: string, r: (Copy, set<Msg>))
    ensures k in Put(s, k, r).copies && Put(s, k, r).copies[k] == r.0
  {
  }

  lemma GrownRefl(s: Sys, k: string)
    requires k in s.copies
    ensures Grown(s, s, k)
  {
  }

  lemma AcceptAtReaches(su: Setup, k: string, c: Copy, id: string)
    requires Shape(su, c) && Listed(su, id) && id in Candidates(k, c.remote, id)
    ensures Approved(AcceptAt(su, k, c, id, true, false).0, id)
  {
    hide Shape, Candidates, ServeAccept, ActivationMsgs, Recheck, ForwardMsgs;
    AcceptReaches(su, k, c, id, id);
  }

  /** Participant `r` hears of the proposal, accepts at home, and `k` is told. */
  ghost function Block(su: Setup, k: string, r: Participant): seq<Step>
    requires WellHosted(su) && Remote(su, r)
  {
    [DeliverNotice(Announcement(su, r)),
     LocalAccept(su.home[r.connector], r.connector, false),
     DeliverAccept(ForwardedAccept(k, NameOf(su, r)), false)]
  }

  lemma RunSnoc(su: Setup, steps: seq<Step>, step: Step)
    ensures Run(su, steps + [step]) == Next(su, Run(su, steps), step)
  {
    assert (steps + [step])[..|steps|] == steps;
  }

  ghost function AfterBlock(su: Setup, s: Sys, k: string, r: Participant): Sys
    requires WellHosted(su) && Remote(su, r)
  {
    OnForwardedAccept(su,
      OnLocalAccept(su, OnNotice(su, s, Announcement(su, r)), su.home[r.connector], r.connector, false),
      ForwardedAccept(k, NameOf(su, r)), false)
  }

  lemma BlockGrows(su: Setup, s: Sys, k: string, r: Participant)
    requires WellHosted(su) && Remote(su, r) && k in su.kernels && Ready(su, s, k) && su.creator != ""
    requires su.senders != [] && su.receivers != []
    ensures var t := AfterBlock(su, s, k, r);
            Ready(su, t, k) && Grown(s, t, k) && Approved(t.copies[k], NameOf(su, r))
  {
    hide OnNotice, OnLocalAccept, OnForwardedAccept, NameOf, Announcement, Shape, Approved;
    HearStep(su, s, k, r);
    var s1 := OnNotice(su, s, Announcement(su, r));
    LocalStep(su, s1, k, r);
    PassStep(su, OnLocalAccept(su, s1, su.home[r.connector], r.connector, false), k, r);
  }

  lemma RunBlock(su: Setup, steps: seq<Step>, k: string, r: Participant)
    requires WellHosted(su) && Remote(su, r)
    ensures Run(su, steps + Block(su, k, r)) == AfterBlock(su, Run(su, steps), k, r)
  {
    hide OnNotice, OnLocalAccept, OnForwardedAccept, NameOf, Announcement, WellHosted, Remote;
    var b := Block(su, k, r);
    assert steps + b == steps + [b[0]] + [b[1]] + [b[2]];
    RunSnoc(su, steps, b[0]);
    RunSnoc(su, steps + [b[0]], b[1]);
    RunSnoc(su, steps + [b[0]] + [b[1]], b[2]);
  }

  /** Opening: the proposal, and its announcement to `q`'s kernel. */
  ghost function Opening(su: Setup, q: Participant): seq<Step>
    requires WellHosted(su) && Remote(su, q)
  {
    [Propose(su.kernels), DeliverNotice(Announcement(su, q))]
  }

  ghost function Blocks(su: Setup, k: string, rs: seq<Participant>): seq<Step>
    requires WellHosted(su) && forall r | r in rs :: r in su.senders + su.receivers
  {
    if rs == [] then []
    else
      var r := rs[|rs| - 1];
      Blocks(su, k, rs[..|rs| - 1]) + (if Remote(su, r) then Block(su, k, r) else [])
  }

  lemma ProposalShape(su: Setup)
    requires WellHosted(su)
    requires ValidProposal(su.creator, NamesOf(su, su.senders), NamesOf(su, su.receivers))
    ensures Shape(su, ProposeAt(su, su.kernels).0)
    ensures forall r | Remote(su, r) :: Announcement(su, r) in ProposeAt(su, su.kernels).1
  {
  }

  lemma ProposedReady(su: Setup)
    requires WellHosted(su)
    requires ValidProposal(su.creator, NamesOf(su, su.senders), NamesOf(su, su.receivers))
    ensures var s := OnPropose(su, Sys(map[], {}), su.kernels);
            Ready(su, s, su.origin) && s.copies.Keys == {su.origin}
  {
    hide ProposeAt, ValidProposal, Shape, WellHosted, Announcement;
    var s, r := OnPropose(su, Sys(map[], {}), su.kernels), ProposeAt(su, su.kernels);
    ProposalShape(su);
    assert s.copies == map[su.origin := r.0] && s.net == r.1;
  }

  lemma OpeningGrows(su: Setup, q: Participant)
    requires WellHosted(su) && Remote(su, q)
    requires ValidProposal(su.creator, NamesOf(su, su.senders), NamesOf(su, su.receivers))
    ensures var k := su.home[q.connector];
            var s := OnNotice(su, OnPropose(su, Sys(map[], {}), su.kernels), Announcement(su, q));
            Ready(su, s, k) && ApprovesHosted(su, s.copies[k], su.origin)
  {
    hide OnPropose, NoticeOnNothing, NoticeOnCopy, Shape, ApprovesHosted;
    ProposedReady(su);
    var s := OnPropose(su, Sys(map[], {}), su.kernels);
    HearStep(su, s, su.origin, q);
    PlaceholderShape(su, su.home[q.connector], s.copies[su.origin], Announcement(su, q));
    hide ValidProposal, WellHosted;
  }

  lemma OpeningRuns(su: Setup, q: Participant)
    requires WellHosted(su) && Remote(su, q)
    ensures Run(su, Opening(su, q)) == OnNotice(su, OnPropose(su, Sys(map[], {}), su.kernels), Announcement(su, q))
  {
    hide OnNotice, OnPropose, WellHosted, Remote, Announcement;
    var o := Opening(su, q);
    assert o == [] + [o[0]] + [o[1]];
    RunSnoc(su, [], o[0]);
    RunSnoc(su, [] + [o[0]], o[1]);
  }

  /** After the blocks of `rs`, kernel `k` has the approvals of the origin's guests and of `rs`. */
  ghost predicate Gathered(su: Setup, s: Sys, k: string, rs: seq<Participant>)
    requires WellHosted(su)
  {
    && Ready(su, s, k)
    && ApprovesHosted(su, s.copies[k], su.origin)
    && forall r | r in rs && Remote(su, r) :: Approved(s.copies[k], NameOf(su, r))
  }

  lemma GatherOne(su: Setup, s: Sys, t: Sys, k: string, rs: seq<Participant>, r: Participant)
    requires WellHosted(su) && Gathered(su, s, k, rs) && Ready(su, t, k) && Grown(s, t, k)
    requires Remote(su, r) ==> Approved(t.copies[k], NameOf(su, r))
    ensures Gathered(su, t, k, rs + [r])
  {
    hide Ready, Shape, Approved, NameOf, WellHosted;
  }

  lemma {:induction false} BlocksRun(su: Setup, q: Participant, rs: seq<Participant>)
    requires WellHosted(su) && Remote(su, q)
    requires forall r | r in rs :: r in su.senders + su.receivers
    requires ValidProposal(su.creator, NamesOf(su, su.senders), NamesOf(su, su.receivers))
    ensures var k := su.home[q.connector];
            Gathered(su, Run(su, Opening(su, q) + Blocks(su, k, rs)), k, rs)
  {
    var k := su.home[q.connector];
    if rs == [] {
      OpeningGrows(su, q);
      OpeningRuns(su, q);
      assert Opening(su, q) + Blocks(su, k, rs) == Opening(su, q);
    } else {
      var before, r := rs[..|rs| - 1], rs[|rs| - 1];
      assert rs == before + [r];
      BlocksRun(su, q, before);
      BlocksStep(su, q, before, r);
    }
  }

  lemma KernelNamed(su: Setup, q: Participant)
    requires WellHosted(su) && Remote(su, q)
    requires ValidProposal(su.creator, NamesOf(su, su.senders), NamesOf(su, su.receivers))
    ensures su.home[q.connector] in su.kernels && su.creator != "" && su.senders != [] && su.receivers != []
  {
  }

  lemma BlocksStep(su: Setup, q: Participant, rs: seq<Participant>, r: Participant)
    requires WellHosted(su) && Remote(su, q)
    requires forall r' | r' in rs + [r] :: r' in su.senders + su.receivers
    requires ValidProposal(su.creator, NamesOf(su, su.senders), NamesOf(su, su.receivers))
    requires Gathered(su, Run(su, Opening(su, q) + Blocks(su, su.home[q.connector], rs)), su.home[q.connector], rs)
    ensures Gathered(su, Run(su, Opening(su, q) + Blocks(su, su.home[q.connector], rs + [r])),
                     su.home[q.connector], rs + [r])
  {
    hide Run, Block, Opening, AfterBlock, Approved;
    var k := su.home[q.connector];
    hide WellHosted;
    assert (rs + [r])[..|rs|] == rs;
    var steps := Opening(su, q) + Blocks(su, k, rs);
    var s := Run(su, steps);
    KernelNamed(su, q);
    assert Ready(su, s, k);
    if Remote(su, r) {
      assert Opening(su, q) + Blocks(su, k, rs + [r]) == steps + Block(su, k, r);
      hide Blocks, Gathered, Ready, ValidProposal, Remote;
      RunBlock(su, steps, k, r);
      BlockGrows(su, s, k, r);
      GatherOne(su, s, AfterBlock(su, s, k, r), k, rs, r);
    } else {
      assert Opening(su, q) + Blocks(su, k, rs + [r]) == steps;
      GatherOne(su, s, s, k, rs, r);
    }
  }

  // ------------------------------------------------------------------------------------------
  // The exact condition
  // ------------------------------------------------------------------------------------------

  /** All participants but those hosted by the origin accept; then `q` accepts once more. */
  ghost function UnsafeRun(su: Setup, q: Participant): seq<Step>
    requires WellHosted(su) && Remote(su, q)
  {
    var k := su.home[q.connector];
    Opening(su, q) + Blocks(su, k, su.senders + su.receivers) + [LocalAccept(k, q.connector, false)]
  }

  lemma EveryNameApproved(su: Setup, q: Participant, c: Copy)
    requires WellHosted(su) && Shape(su, c)
    requires ApprovesHosted(su, c, su.origin)
    requires forall r | r in su.senders + su.receivers && Remote(su, r) :: Approved(c, NameOf(su, r))
    ensures forall p | p in su.senders + su.receivers :: Approved(c, NameOf(su, p))
  {
    forall p | p in su.senders + su.receivers
      ensures Approved(c, NameOf(su, p))
    {
      NameIsCandidate(su, p, c.remote, "");
      PrefixOfQualified(su.home[p.connector], p.connector, su.origin);
    }
  }

  /** Names of senders and receivers do not meet, so each approved name is set in its own map. */
  lemma ListsAreDisjoint(senders: seq<string>, receivers: seq<string>, i: nat, j: nat)
    requires NoDuplicates(senders + receivers) && i < |senders| && j < |receivers|
    ensures senders[i] != receivers[j]
  {
    var all := senders + receivers;
    assert all[i] == senders[i] && all[|senders| + j] == receivers[j];
  }

  lemma ApprovedNamesComplete(su: Setup, c: Copy)
    requires Shape(su, c) && NoDuplicates(c.senders + c.receivers)
    requires forall p | p in su.senders + su.receivers :: Approved(c, NameOf(su, p))
    ensures AllApproved(c)
  {
    forall id | id in c.senderApprovals
      ensures c.senderApprovals[id]
    {
      var i :| 0 <= i < |c.senders| && c.senders[i] == id;
      assert Approved(c, NameOf(su, su.senders[i]));
      if id in c.receiverApprovals {
        var j :| 0 <= j < |c.receivers| && c.receivers[j] == id;
        ListsAreDisjoint(c.senders, c.receivers, i, j);
      }
    }
    forall id | id in c.receiverApprovals
      ensures c.receiverApprovals[id]
    {
      var j :| 0 <= j < |c.receivers| && c.receivers[j] == id;
      assert Approved(c, NameOf(su, su.receivers[j]));
      if id in c.senderApprovals {
        var i :| 0 <= i < |c.senders| && c.senders[i] == id;
        ListsAreDisjoint(c.senders, c.receivers, i, j);
      }
    }
  }

  /** The run in which everybody hosted elsewhere accepts ends with an active copy, although no connector
      of the origin accepted. */
  lemma UnsafeRunActivates(su: Setup, q: Participant)
    requires WellHosted(su) && Remote(su, q)
    requires ValidProposal(su.creator, NamesOf(su, su.senders), NamesOf(su, su.receivers))
    ensures var k := su.home[q.connector];
            var s := Run(su, UnsafeRun(su, q));
            k in s.copies && s.copies[k].status == Active
    ensures forall a | a in Accepters(su, UnsafeRun(su, q)) :: su.home[a] != su.origin
  {
    OriginSilent(su, q);
    ActivatesAnyway(su, q);
  }

  lemma OriginSilent(su: Setup, q: Participant)
    requires WellHosted(su) && Remote(su, q)
    ensures forall a | a in Accepters(su, UnsafeRun(su, q)) :: su.home[a] != su.origin
  {
    hide UnsafeRun, Remote;
    forall a | a in Accepters(su, UnsafeRun(su, q))
      ensures su.home[a] != su.origin
    {
      OriginNotAsked(su, q, a);
    }
  }

  lemma ActivatesAnyway(su: Setup, q: Participant)
    requires WellHosted(su) && Remote(su, q)
    requires ValidProposal(su.creator, NamesOf(su, su.senders), NamesOf(su, su.receivers))
    ensures var k := su.home[q.connector];
            var s := Run(su, UnsafeRun(su, q));
            k in s.copies && s.copies[k].status == Active
  {
    var k := su.home[q.connector];
    var all := su.senders + su.receivers;
    var steps := Opening(su, q) + Blocks(su, k, all);
    BlocksRun(su, q, all);
    var s := Run(su, steps);
    var c := s.copies[k];
    RunSnoc(su, steps, LocalAccept(k, q.connector, false));
    EveryNameApproved(su, q, c);
    ApprovedNamesComplete(su, c);
    NameIsCandidate(su, q, c.remote, k);
    AcceptReaches(su, k, c, q.connector, NameOf(su, q));
    LastAcceptActivates(su, k, c, q.connector);
  }

  lemma LastAcceptActivates(su: Setup, k: string, c: Copy, who: string)
    requires Shape(su, c) && AllApproved(c) && ServeAccept(k, c, who, false).1 == Done
    ensures AcceptAt(su, k, c, who, false, false).0.status == Active
  {
    hide ServeAccept, Recheck, AllApproved, ActivationMsgs, ForwardMsgs;
    AcceptActivatesExactly(k, c, who, false);
    AcceptKeepsAll(su, k, c, who);
  }

  lemma AcceptKeepsAll(su: Setup, k: string, c: Copy, who: string)
    requires Shape(su, c) && AllApproved(c)
    ensures AllApproved(ServeAccept(k, c, who, false).0)
  {
    hide Candidates, ReadyToActivate;
    MarkingKeepsAll(c, Candidates(k, c.remote, who));
  }

  lemma {:induction false} BlocksAccepters(su: Setup, k: string, rs: seq<Participant>, i: nat)
    requires WellHosted(su) && forall r | r in rs :: r in su.senders + su.receivers
    requires i < |Blocks(su, k, rs)| && Blocks(su, k, rs)[i].LocalAccept?
    ensures Blocks(su, k, rs)[i].connector in su.home
    ensures su.home[Blocks(su, k, rs)[i].connector] != su.origin
  {
    var before := Blocks(su, k, rs[..|rs| - 1]);
    if i < |before| {
      BlocksAccepters(su, k, rs[..|rs| - 1], i);
    }
  }

  /** In that run no connector hosted by the origin accepts. */
  lemma OriginNotAsked(su: Setup, q: Participant, a: string)
    requires WellHosted(su) && Remote(su, q) && a in Accepters(su, UnsafeRun(su, q))
    ensures su.home[a] != su.origin
  {
    hide Run, UnsafeRun, Remote, WellHosted;
    var steps := UnsafeRun(su, q);
    var i :| 0 <= i < |steps| && Served(su, Run(su, steps[..i]), steps[i]) && a == steps[i].connector;
    assert steps[i].LocalAccept?;
    hide Served;
    UnsafeRunAsksElsewhere(su, q, i);
  }

  lemma UnsafeRunAsksElsewhere(su: Setup, q: Participant, i: nat)
    requires WellHosted(su) && Remote(su, q) && i < |UnsafeRun(su, q)| && UnsafeRun(su, q)[i].LocalAccept?
    ensures var a := UnsafeRun(su, q)[i].connector; a in su.home && su.home[a] != su.origin
  {
    hide Blocks;
    var k := su.home[q.connector];
    var all := su.senders + su.receivers;
    var bs := Blocks(su, k, all);
    if 2 <= i < 2 + |bs| {
      assert UnsafeRun(su, q)[i] == bs[i - 2];
      BlocksAccepters(su, k, all, i - 2);
    }
  }

  /** Negotiation is safe in every run exactly when the request is refused outright, or the origin
      hosts no participant but the creator, or it hosts them all. */
  lemma SafeExactlyWhenOriginMaySpeak(su: Setup)
    requires WellHosted(su)
    ensures (forall steps :: Safe(su, steps)) <==> !Bad(su)
  {
    if Bad(su) {
      var p :| p in su.senders + su.receivers && su.home[p.connector] == su.origin && p.connector != su.creator;
      var q :| q in su.senders + su.receivers && su.home[q.connector] != su.origin;
      UnsafeRunActivates(su, q);
      assert !Safe(su, UnsafeRun(su, q));
    } else {
      forall steps
        ensures Safe(su, steps)
      {
        if OriginMaySpeak(su) {
          NegotiationIsSafe(su, steps);
        } else {
          InvalidProposalIsInert(su, steps);
        }
      }
    }
  }

  lemma {:induction false} InvalidProposalIsInert(su: Setup, steps: seq<Step>)
    requires !ValidProposal(su.creator, NamesOf(su, su.senders), NamesOf(su, su.receivers))
    ensures Run(su, steps) == Sys(map[], {})
  {
    if steps != [] {
      InvalidProposalIsInert(su, steps[..|steps| - 1]);
    }
  }

  /** When a remote kernel turns out not to be connected, the origin tries to withdraw the proposal
      in the creator's name. The creator is given by its bare name while the lists hold qualified
      names, so the withdrawal is always refused and the proposal stays open. */
  lemma WithdrawalIsRefused(su: Setup, reached: set<string>)
    requires WellHosted(su)
    ensures Reject(ProposeAt(su, reached).0, su.creator, false) ==
            (ProposeAt(su, reached).0, Refused(NotParticipant))
  {
    var c := ProposeAt(su, reached).0;
    if su.creator in c.senders {
      var p := ListedName(su, su.senders, su.creator);
    }
    if su.creator in c.receivers {
      var p := ListedName(su, su.receivers, su.creator);
    }
  }
}
