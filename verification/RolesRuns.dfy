/** Whole runs of list changes: on one copy of a channel, and on all copies with list updates between
    them in any order. */
module RolesRuns {
  import opened Wrappers
  import opened Names
  import opened Roles
  import N = Negotiation
  import D = Delivery

  datatype Op =
    | AskSubscription(who: string, change: Change, id: string)
    | AskChange(who: string, change: Change, target: string, id: string)
    | StoreForeign(request: Request)
    | ApproveSub(who: string, id: string)
    | RejectSub(who: string, id: string)
    | ApprovePerm(who: string, id: string)
    | RejectPerm(who: string, id: string)
    | TakeUpdate(senders: seq<string>, receivers: seq<string>, status: Option<N.Status>)

  ghost function Next(s: State, op: Op): (State, Outcome) {
    match op
    case AskSubscription(who, change, id) => RequestSubscription(s, who, change, id)
    case AskChange(who, change, target, id) => RequestChange(s, who, change, target, id)
    case StoreForeign(r) => (StoreRemote(s, r), Done)
    case ApproveSub(who, id) => ApproveSubscription(s, who, id)
    case RejectSub(who, id) => RejectSubscription(s, who, id)
    case ApprovePerm(who, id) => ApprovePermission(s, who, id)
    case RejectPerm(who, id) => RejectPermission(s, who, id)
    case TakeUpdate(senders, receivers, status) => (Update(s, senders, receivers, status), Done)
  }

  ghost function Run(s: State, ops: seq<Op>): State
    decreases |ops|
  {
    if ops == [] then s else Run(Next(s, ops[0]).0, ops[1..])
  }

  // ------------------------------------------------------------------------------------------
  // The lists stay disjoint, on every copy
  // ------------------------------------------------------------------------------------------

  predicate Apart(senders: seq<string>, receivers: seq<string>) {
    forall x | x in senders :: x !in receivers
  }

  lemma {:induction false} RemoveFirstKeeps(ids: seq<string>, name: string)
    ensures forall x | x in RemoveFirst(ids, name) :: x in ids
    ensures multiset(RemoveFirst(ids, name)) == multiset(ids) - multiset{name}
  {
    if ids != [] {
      assert ids == [ids[0]] + ids[1..];
      RemoveFirstKeeps(ids[1..], name);
    }
  }

  lemma SubscriptionKeepsApart(s: State, r: Request)
    requires Apart(s.senders, s.receivers)
    ensures Apart(ApplySubscription(s, r).0.senders, ApplySubscription(s, r).0.receivers)
  {
    hide SubscribedSender, SubscribedReceiver;
  }

  lemma PermissionKeepsApart(s: State, r: Request)
    requires Apart(s.senders, s.receivers)
    ensures Apart(ApplyPermission(s, r).0.senders, ApplyPermission(s, r).0.receivers)
  {
    hide PermittedName, RemovedSender, RemoveFirst, AddForeign;
    RemoveFirstKeeps(s.senders, RemovedSender(r));
    RemoveFirstKeeps(s.receivers, r.target);
  }

  lemma NextKeepsApart(s: State, op: Op)
    requires Apart(s.senders, s.receivers)
    requires op.TakeUpdate? ==> Apart(op.senders, op.receivers)
    ensures Apart(Next(s, op).0.senders, Next(s, op).0.receivers)
  {
    if op.ApproveSub? || op.ApprovePerm? {
      var n := Find(s.requests, op.id);
      if n < |s.requests| {
        SubscriptionKeepsApart(s, s.requests[n]);
        PermissionKeepsApart(s, s.requests[n]);
      }
    }
  }

  /** The copies of a channel on all kernels, and the list updates under way between them. */
  datatype World = World(copies: map<string, State>, updates: set<(seq<string>, seq<string>)>)

  datatype Step = At(kernel: string, op: Op) | Announce(kernel: string)

  /** A kernel may announce its lists at any time; an update is taken only if some copy announced it,
      however long ago. */
  ghost function WorldNext(w: World, step: Step): World {
    if step.kernel !in w.copies then w
    else
      var c := w.copies[step.kernel];
      match step
      case Announce(_) => w.(updates := w.updates + {(c.senders, c.receivers)})
      case At(k, op) =>
        if op.TakeUpdate? && (op.senders, op.receivers) !in w.updates then w
        else w.(copies := w.copies[k := Next(c, op).0])
  }

  ghost function WorldRun(w: World, steps: seq<Step>): World
    decreases |steps|
  {
    if steps == [] then w else WorldRun(WorldNext(w, steps[0]), steps[1..])
  }

  predicate AllApart(w: World) {
    && (forall k | k in w.copies :: Apart(w.copies[k].senders, w.copies[k].receivers))
    && (forall u | u in w.updates :: Apart(u.0, u.1))
  }

  /** On no copy does a name ever stand in both lists, whatever is requested, approved, rejected and
      sent between kernels. */
  lemma {:induction false} ListsStayApart(w: World, steps: seq<Step>)
    requires AllApart(w)
    ensures AllApart(WorldRun(w, steps))
    decreases |steps|
  {
    if steps != [] {
      var step := steps[0];
      if step.At? && step.kernel in w.copies
      && (step.op.TakeUpdate? ==> (step.op.senders, step.op.receivers) in w.updates) {
        NextKeepsApart(w.copies[step.kernel], step.op);
      }
      hide Next, Apart;
      assert AllApart(WorldNext(w, step));
      ListsStayApart(WorldNext(w, step), steps[1..]);
    }
  }

  /** A validated proposal starts that way. */
  lemma ProposalIsApart(creator: string, senders: seq<string>, receivers: seq<string>)
    requires N.ValidProposal(creator, senders, receivers)
    ensures Apart(senders, receivers)
  {
    var all := senders + receivers;
    forall x | x in senders
      ensures x !in receivers
    {
      var i :| 0 <= i < |senders| && senders[i] == x;
      assert all[i] == x;
      forall j | 0 <= j < |receivers|
        ensures receivers[j] != x
      {
        assert all[|senders| + j] == receivers[j];
      }
    }
  }

  // ------------------------------------------------------------------------------------------
  // Every request is decided at most once
  // ------------------------------------------------------------------------------------------

  /** The step decides request `id`, by whichever of the two paths. */
  ghost predicate Decides(s: State, op: Op, id: string) {
    && IsDecision(op)
    && op.id == id && Next(s, op).1 == Done
  }

  ghost function Decisions(s: State, ops: seq<Op>, id: string): nat
    decreases |ops|
  {
    if ops == [] then 0
    else (if Decides(s, ops[0], id) then 1 else 0) + Decisions(Next(s, ops[0]).0, ops[1..], id)
  }

  /** The request found under `id` is no longer pending. */
  predicate Settled(requests: seq<Request>, id: string) {
    var n := Find(requests, id); n < |requests| && requests[n].decision != Pending
  }

  lemma FilingSettlesNothing(requests: seq<Request>, r: Request, id: string)
    requires r.decision == Pending
    ensures Settled(requests + [r], id) == Settled(requests, id)
  {
    var n, m := Find(requests, id), Find(requests + [r], id);
    assert n < |requests| ==> (requests + [r])[n] == requests[n];
    assert m < |requests| ==> (requests + [r])[m] == requests[m];
  }

  lemma DecidingSettlesOne(requests: seq<Request>, n: nat, d: Decision, id: string)
    requires n < |requests| && Find(requests, requests[n].id) == n && d != Pending
    ensures Settled(requests[n := requests[n].(decision := d)], id) <==> Settled(requests, id) || id == requests[n].id
  {
    var after := requests[n := requests[n].(decision := d)];
    assert forall i | 0 <= i < |requests| :: after[i].id == requests[i].id;
    assert Find(after, id) == Find(requests, id);
  }

  predicate IsDecision(op: Op) {
    op.ApproveSub? || op.RejectSub? || op.ApprovePerm? || op.RejectPerm?
  }

  lemma ApplyKeepsRequests(s: State, r: Request)
    ensures ApplySubscription(s, r).0.requests == s.requests && ApplySubscription(s, r).0.kernel == s.kernel
    ensures ApplyPermission(s, r).0.requests == s.requests && ApplyPermission(s, r).0.kernel == s.kernel
  {
    hide PermittedName, RemovedSender, RemoveFirst, AddForeign, SubscribedSender, SubscribedReceiver;
  }

  /** A successful decision turns the first request of that id, which is pending, into a decided one. */
  lemma DecisionShape(s: State, op: Op)
    requires IsDecision(op)
    ensures Next(s, op).1 != Done ==> Next(s, op).0 == s
    ensures Next(s, op).1 == Done ==>
      var n, t := Find(s.requests, op.id), Next(s, op).0;
      && n < |s.requests| == |t.requests| && s.requests[n].decision == Pending && t.requests[n].decision != Pending
      && t.requests == s.requests[n := s.requests[n].(decision := t.requests[n].decision)]
      && ((op.ApproveSub? || op.ApprovePerm?) ==> t.requests[n].decision == Approved(op.who))
  {
    var n := Find(s.requests, op.id);
    if n < |s.requests| {
      ApplyKeepsRequests(s, s.requests[n]);
    }
    hide IsParticipant, ApplySubscription, ApplyPermission;
  }

  /** Any other step at most files a pending request. */
  lemma FilingShape(s: State, op: Op)
    requires !IsDecision(op)
    ensures var t := Next(s, op).0.requests;
      || t == s.requests
      || (|t| == |s.requests| + 1 && t == s.requests + [t[|s.requests|]] && t[|s.requests|].decision == Pending)
  {
    hide IsParticipant, Objection, AddRemote;
  }

  lemma NextSettles(s: State, op: Op, id: string)
    ensures Settled(Next(s, op).0.requests, id) <==> Settled(s.requests, id) || Decides(s, op, id)
    ensures Decides(s, op, id) ==> !Settled(s.requests, id)
  {
    var t := Next(s, op).0;
    hide Next;
    if !IsDecision(op) {
      FilingShape(s, op);
      if t.requests != s.requests {
        FilingSettlesNothing(s.requests, t.requests[|s.requests|], id);
      }
    } else {
      DecisionShape(s, op);
      if Next(s, op).1 == Done {
        var n := Find(s.requests, op.id);
        DecidingSettlesOne(s.requests, n, t.requests[n].decision, id);
      }
    }
  }

  /** Over any run, and although two pairs of operations share the list, the decisions taken on a
      request are none or one: one exactly when it was open at the start and is not at the end. */
  lemma {:induction false} DecidedAtMostOnce(s: State, ops: seq<Op>, id: string)
    ensures Settled(s.requests, id) ==> Settled(Run(s, ops).requests, id)
    ensures Decisions(s, ops, id)
         == if Settled(Run(s, ops).requests, id) && !Settled(s.requests, id) then 1 else 0
    decreases |ops|
  {
    if ops != [] {
      NextSettles(s, ops[0], id);
      hide Next, Settled;
      DecidedAtMostOnce(Next(s, ops[0]).0, ops[1..], id);
    }
  }

  // ------------------------------------------------------------------------------------------
  // Decisions on several copies
  // ------------------------------------------------------------------------------------------

  /** The step decides request `id` on the copy of kernel `k`. */
  ghost predicate DecidesAt(w: World, step: Step, k: string, id: string) {
    step.At? && step.kernel == k && k in w.copies && Decides(w.copies[k], step.op, id)
  }

  ghost function DecisionsAt(w: World, steps: seq<Step>, k: string, id: string): nat
    decreases |steps|
  {
    if steps == [] then 0
    else (if DecidesAt(w, steps[0], k, id) then 1 else 0) + DecisionsAt(WorldNext(w, steps[0]), steps[1..], k, id)
  }

  ghost predicate SettledAt(w: World, k: string, id: string) {
    k in w.copies && Settled(w.copies[k].requests, id)
  }

  lemma WorldSettles(w: World, step: Step, k: string, id: string)
    ensures SettledAt(WorldNext(w, step), k, id) <==> SettledAt(w, k, id) || DecidesAt(w, step, k, id)
    ensures DecidesAt(w, step, k, id) ==> !SettledAt(w, k, id)
  {
    hide Settled, Next;
    if step.At? && step.kernel == k && k in w.copies {
      NextSettles(w.copies[k], step.op, id);
    }
  }

  /** In every run over all copies, each copy decides a request at most once: exactly when it was open
      there at the start and is not at the end. */
  lemma {:induction false} DecidedAtMostOncePerCopy(w: World, steps: seq<Step>, k: string, id: string)
    ensures SettledAt(w, k, id) ==> SettledAt(WorldRun(w, steps), k, id)
    ensures DecisionsAt(w, steps, k, id)
         == if SettledAt(WorldRun(w, steps), k, id) && !SettledAt(w, k, id) then 1 else 0
    decreases |steps|
  {
    hide WorldNext, SettledAt, DecidesAt;
    if steps != [] {
      WorldSettles(w, steps[0], k, id);
      DecidedAtMostOncePerCopy(WorldNext(w, steps[0]), steps[1..], k, id);
    }
  }

  /** The decision a copy has taken on a request. */
  function DecisionOn(s: State, id: string): Option<Decision> {
    var n := Find(s.requests, id); if n < |s.requests| then Some(s.requests[n].decision) else None
  }

  function Wanting(id: string, who: string, x: string): Request {
    Request(id, who, AddReceiver, x, Pending)
  }

  /** Neither list of the copy has any spelling of `x`, and no request has the id. */
  ghost predicate NewHere(s: State, x: string, id: string) {
    !HasColon(x) && !D.Lists(s.senders, x) && !D.Lists(s.receivers, x) && NewId(s.requests, id)
  }

  lemma AskedHere(s: State, who: string, x: string, id: string)
    requires s.status == N.Active && IsParticipant(s, who) && NewHere(s, x, id)
    ensures Next(s, AskChange(who, AddReceiver, x, id)).0 == s.(requests := s.requests + [Wanting(id, who, x)])
  {
    hide IsParticipant, D.Lists, HasColon, NewId;
    assert Objection(s, AddReceiver, x) == None;
  }

  lemma StoredThere(s: State, who: string, x: string, id: string)
    requires NewHere(s, x, id)
    ensures Next(s, StoreForeign(Wanting(id, who, x))).0 == s.(requests := s.requests + [Wanting(id, who, x)])
  {
    hide D.Lists, HasColon;
  }

  lemma ApprovedHere(s: State, who: string, x: string, id: string, p: string)
    requires NewHere(s, x, id) && IsParticipant(s, p) && !HasColon(who)
    ensures var t := Next(s.(requests := s.requests + [Wanting(id, who, x)]), ApproveSub(p, id)).0;
      t.receivers == s.receivers + [x] && DecisionOn(t, id) == Some(Approved(p))
  {
    hide D.Lists, HasBare, HasColon, Qualify, Find, Next, NewId;
    Unlisted(s.senders, s.kernel, x);
    Unlisted(s.receivers, s.kernel, x);
    var r, n := Wanting(id, who, x), |s.requests|;
    var s1, done := s.(requests := s.requests + [r]), r.(decision := Approved(p));
    assert SubscribedReceiver(r) == x && IsParticipant(s1, p);
    hide IsParticipant, SubscribedReceiver, NewHere;
    FindAppended(s.requests, r);
    assert s1.requests[n] == r;
    SubscriptionApplies(s1, n, id, p);
    assert s1.requests[n := done] == s.requests + [done];
    FindAppended(s.requests, done);
  }

  lemma SubscriptionApplies(s: State, n: nat, id: string, p: string)
    requires IsParticipant(s, p) && n < |s.requests| && Find(s.requests, id) == n
    requires s.requests[n].decision == Pending && ApplySubscription(s, s.requests[n]).1 == Done
    ensures var t := ApplySubscription(s, s.requests[n]).0;
      n < |t.requests| && Next(s, ApproveSub(p, id)).0 == Decide(t, n, Approved(p))
  {
    hide IsParticipant, Find;
    ApplyKeepsRequests(s, s.requests[n]);
    hide ApplySubscription;
  }

  lemma RejectedThere(s: State, who: string, x: string, id: string, p: string)
    requires NewHere(s, x, id) && IsParticipant(s, p)
    ensures var t := Next(s.(requests := s.requests + [Wanting(id, who, x)]), RejectSub(p, id)).0;
      t.receivers == s.receivers && DecisionOn(t, id) == Some(Rejected(p))
  {
    hide Find, NewId, D.Lists, HasColon;
    var r, n := Wanting(id, who, x), |s.requests|;
    var s1, done := s.(requests := s.requests + [r]), r.(decision := Rejected(p));
    assert IsParticipant(s1, p);
    hide IsParticipant;
    FindAppended(s.requests, r);
    assert s1.requests[n] == r;
    assert Next(s1, RejectSub(p, id)).0 == Decide(s1, n, Rejected(p));
    hide Next;
    assert s1.requests[n := done] == s.requests + [done];
    FindAppended(s.requests, done);
  }

  lemma WorldFourSteps(w: World, steps: seq<Step>)
    requires |steps| == 4
    ensures WorldRun(w, steps) == WorldNext(WorldNext(WorldNext(WorldNext(w, steps[0]), steps[1]), steps[2]), steps[3])
  {
    hide WorldNext;
    var w1 := WorldNext(w, steps[0]);
    var w2 := WorldNext(w1, steps[1]);
    var w3 := WorldNext(w2, steps[2]);
    assert WorldRun(w, steps) == WorldRun(w1, steps[1..]) == WorldRun(w2, steps[1..][1..]);
    assert WorldRun(w2, steps[1..][1..]) == WorldRun(w3, steps[1..][1..][1..]);
    assert WorldRun(w3, steps[1..][1..][1..]) == WorldRun(WorldNext(w3, steps[3]), steps[1..][1..][1..][1..]);
  }

  /** Two copies may decide the same request differently: asked on one kernel and stored on another, it is
      approved by a participant of the first and rejected by one of the second, and the lists differ. */
  lemma CopiesMayDecideDifferently(w: World, k: string, l: string, who: string, x: string, id: string, p: string,
                                   q: string)
    requires k != l && k in w.copies && l in w.copies && w.copies[k].status == N.Active
    requires NewHere(w.copies[k], x, id) && NewHere(w.copies[l], x, id)
    requires IsParticipant(w.copies[k], who) && IsParticipant(w.copies[k], p) && IsParticipant(w.copies[l], q)
    ensures var t := WorldRun(w, [At(k, AskChange(who, AddReceiver, x, id)), At(l, StoreForeign(Wanting(id, who, x))),
                                  At(k, ApproveSub(p, id)), At(l, RejectSub(q, id))]);
      && k in t.copies && DecisionOn(t.copies[k], id) == Some(Approved(p))
      && l in t.copies && DecisionOn(t.copies[l], id) == Some(Rejected(q))
      && t.copies[k].receivers == w.copies[k].receivers + [x] && t.copies[l].receivers == w.copies[l].receivers
  {
    hide Next, WorldRun, NewHere, IsParticipant, DecisionOn, HasColon;
    ParticipantIsPlain(w.copies[k], who);
    AskedHere(w.copies[k], who, x, id);
    StoredThere(w.copies[l], who, x, id);
    ApprovedHere(w.copies[k], who, x, id, p);
    RejectedThere(w.copies[l], who, x, id, q);
    WorldFourSteps(w, [At(k, AskChange(who, AddReceiver, x, id)), At(l, StoreForeign(Wanting(id, who, x))),
                       At(k, ApproveSub(p, id)), At(l, RejectSub(q, id))]);
  }

  lemma ParticipantIsPlain(s: State, who: string)
    requires IsParticipant(s, who)
    ensures !HasColon(who)
  {
    hide HasBare, HasColon;
    if HasBare(s.senders, who) {
      BareIsPlain(s.senders, who);
    } else {
      BareIsPlain(s.receivers, who);
    }
  }

  // ------------------------------------------------------------------------------------------
  // Every listed name is accounted for
  // ------------------------------------------------------------------------------------------

  /** The names that approving `r` may add, by either path. */
  predicate Adds(kernel: string, r: Request, toSenders: bool, name: string) {
    if toSenders then r.change == AddSender && name in {SubscribedSender(r), PermittedName(kernel, r)}
    else r.change == AddReceiver && name in {SubscribedReceiver(r), PermittedName(kernel, r)}
  }

  ghost predicate Granted(s: State, toSenders: bool, name: string) {
    exists i :: 0 <= i < |s.requests| && s.requests[i].decision.Approved?
                && Adds(s.kernel, s.requests[i], toSenders, name)
  }

  ghost predicate Accounted(start: State, s: State) {
    && s.kernel == start.kernel
    && (forall x | x in s.senders :: x in start.senders || Granted(s, true, x))
    && (forall x | x in s.receivers :: x in start.receivers || Granted(s, false, x))
  }

  lemma GrantedStays(s: State, op: Op, toSenders: bool, x: string)
    requires Granted(s, toSenders, x)
    ensures Granted(Next(s, op).0, toSenders, x)
  {
    var i :| 0 <= i < |s.requests| && s.requests[i].decision.Approved? && Adds(s.kernel, s.requests[i], toSenders, x);
    hide Adds, ApplySubscription, ApplyPermission, Objection, IsParticipant;
    KernelStays(s, op);
    RequestStays(s, op, i);
  }

  lemma KernelStays(s: State, op: Op)
    ensures Next(s, op).0.kernel == s.kernel
  {
    hide PermittedName, RemoveFirst, AddForeign;
  }

  /** A step leaves every decided request as it is. */
  lemma RequestStays(s: State, op: Op, i: nat)
    requires i < |s.requests| && s.requests[i].decision != Pending
    ensures i < |Next(s, op).0.requests| && Next(s, op).0.requests[i] == s.requests[i]
  {
    hide Next;
    if IsDecision(op) {
      DecisionShape(s, op);
    } else {
      FilingShape(s, op);
    }
  }

  lemma AppliedNames(s: State, r: Request, x: string)
    ensures x in ApplySubscription(s, r).0.senders ==> x in s.senders || Adds(s.kernel, r, true, x)
    ensures x in ApplySubscription(s, r).0.receivers ==> x in s.receivers || Adds(s.kernel, r, false, x)
    ensures x in ApplyPermission(s, r).0.senders ==> x in s.senders || Adds(s.kernel, r, true, x)
    ensures x in ApplyPermission(s, r).0.receivers ==> x in s.receivers || Adds(s.kernel, r, false, x)
  {
    hide PermittedName, RemovedSender, RemoveFirst, AddForeign, SubscribedSender, SubscribedReceiver;
    RemoveFirstKeeps(s.senders, RemovedSender(r));
    RemoveFirstKeeps(s.receivers, r.target);
  }

  /** The step approves a request that adds `x`. */
  ghost predicate ApprovesAdding(s: State, op: Op, toSenders: bool, x: string) {
    && IsDecision(op) && Next(s, op).1 == Done
    && var n, after := Find(s.requests, op.id), Next(s, op).0.requests;
       n < |s.requests| && n < |after| && after[n].decision.Approved? && Adds(s.kernel, s.requests[n], toSenders, x)
  }

  /** Only approvals and updates change the lists, and approvals as the request says. */
  lemma ListsChangeByApproval(s: State, op: Op, x: string)
    requires !op.TakeUpdate?
    ensures x in Next(s, op).0.senders && x !in s.senders ==> ApprovesAdding(s, op, true, x)
    ensures x in Next(s, op).0.receivers && x !in s.receivers ==> ApprovesAdding(s, op, false, x)
  {
    hide Adds, IsParticipant, ApplySubscription, ApplyPermission, Objection;
    if IsDecision(op) {
      DecisionShape(s, op);
      if Next(s, op).1 == Done {
        AppliedNames(s, s.requests[Find(s.requests, op.id)], x);
      }
    }
  }

  lemma NewNameGranted(s: State, op: Op, x: string)
    requires !op.TakeUpdate?
    ensures x in Next(s, op).0.senders ==> x in s.senders || Granted(Next(s, op).0, true, x)
    ensures x in Next(s, op).0.receivers ==> x in s.receivers || Granted(Next(s, op).0, false, x)
  {
    ListsChangeByApproval(s, op, x);
    KernelStays(s, op);
    if IsDecision(op) {
      DecisionShape(s, op);
      hide Next;
      if Next(s, op).1 == Done {
        var n, t := Find(s.requests, op.id), Next(s, op).0;
        assert Adds(s.kernel, s.requests[n], true, x) == Adds(t.kernel, t.requests[n], true, x);
        assert Adds(s.kernel, s.requests[n], false, x) == Adds(t.kernel, t.requests[n], false, x);
      }
    }
  }

  /** Without updates from elsewhere, every name in a list was there at the start or was added by an
      approved request for that list. */
  lemma {:induction false} NamesAreAccountedFor(start: State, s: State, ops: seq<Op>)
    requires Accounted(start, s) && forall i | 0 <= i < |ops| :: !ops[i].TakeUpdate?
    ensures Accounted(start, Run(s, ops))
    decreases |ops|
  {
    if ops != [] {
      AccountedStays(start, s, ops[0]);
      hide Next, Accounted;
      NamesAreAccountedFor(start, Next(s, ops[0]).0, ops[1..]);
    }
  }

  lemma AccountedStays(start: State, s: State, op: Op)
    requires Accounted(start, s) && !op.TakeUpdate?
    ensures Accounted(start, Next(s, op).0)
  {
    KernelStays(s, op);
    hide Next, Granted;
    var t := Next(s, op).0;
    forall x | x in t.senders
      ensures x in start.senders || Granted(t, true, x)
    {
      NewNameGranted(s, op, x);
      if Granted(s, true, x) {
        GrantedStays(s, op, true, x);
      }
    }
    forall x | x in t.receivers
      ensures x in start.receivers || Granted(t, false, x)
    {
      NewNameGranted(s, op, x);
      if Granted(s, false, x) {
        GrantedStays(s, op, false, x);
      }
    }
  }

  // ------------------------------------------------------------------------------------------
  // What is not kept
  // ------------------------------------------------------------------------------------------

  predicate BareApart(senders: seq<string>, receivers: seq<string>) {
    forall i, j | 0 <= i < |senders| && 0 <= j < |receivers| :: Bare(senders[i]) != Bare(receivers[j])
  }

  lemma FourSteps(s: State, ops: seq<Op>)
    requires |ops| == 4
    ensures Run(s, ops) == Next(Next(Next(Next(s, ops[0]).0, ops[1]).0, ops[2]).0, ops[3]).0
  {
    hide Next;
    var s1 := Next(s, ops[0]).0;
    var s2 := Next(s1, ops[1]).0;
    var s3 := Next(s2, ops[2]).0;
    assert Run(s, ops) == Run(s1, ops[1..]) == Run(s2, ops[1..][1..]) == Run(s3, ops[1..][1..][1..]);
    assert Run(s3, ops[1..][1..][1..]) == Run(Next(s3, ops[3]).0, ops[1..][1..][1..][1..]);
  }

  /** No request has this id. */
  predicate NewId(requests: seq<Request>, id: string) {
    forall k | 0 <= k < |requests| :: requests[k].id != id
  }

  lemma FindNew(requests: seq<Request>, a: Request, b: Request)
    ensures NewId(requests, a.id) ==> Find(requests + [a, b], a.id) == |requests|
    ensures NewId(requests, b.id) && a.id != b.id ==> Find(requests + [a, b], b.id) == |requests| + 1
  {
    var all := requests + [a, b];
    assert all[|requests|] == a && all[|requests| + 1] == b;
    assert forall k | 0 <= k < |requests| :: all[k] == requests[k];
  }

  /** A new connector `x` without a pending request, and an approver that is itself a participant. */
  ghost predicate Newcomer(s: State, x: string) {
    && s.status == N.Active && IsParticipant(s, s.approver)
    && (forall k | 0 <= k < |s.requests| :: !(s.requests[k].requester == x && s.requests[k].decision == Pending))
    && !HasColon(x) && !D.Lists(s.senders, x) && !D.Lists(s.receivers, x)
  }

  function Asked(s: State, x: string, i: string): Request {
    Request(i, s.approver, AddReceiver, x, Pending)
  }

  function Asking(x: string, j: string): Request {
    Request(j, x, AddSender, x, Pending)
  }

  lemma Unlisted(ids: seq<string>, k: string, x: string)
    requires !HasColon(x) && !D.Lists(ids, x)
    ensures !HasBare(ids, x) && x !in ids && Qualify(k, x) !in ids
  {
    BareOfQualified(k, x);
    assert Bare(x) == x;
    hide Bare, Qualify, HasColon;
  }

  lemma BareIsPlain(ids: seq<string>, who: string)
    requires HasBare(ids, who)
    ensures !HasColon(who)
  {
  }

  lemma NewcomerUnlisted(s: State, x: string)
    requires Newcomer(s, x)
    ensures !IsParticipant(s, x) && x != s.approver && !HasColon(s.approver)
    ensures x !in s.senders && x !in s.receivers && Qualify(s.kernel, x) !in s.senders
  {
    hide HasColon, HasBare, D.Lists, Qualify;
    Unlisted(s.senders, s.kernel, x);
    Unlisted(s.receivers, s.kernel, x);
    if HasBare(s.senders, s.approver) {
      BareIsPlain(s.senders, s.approver);
    } else {
      BareIsPlain(s.receivers, s.approver);
    }
  }

  lemma NewcomerIsAskedFor(s: State, x: string, i: string)
    requires Newcomer(s, x)
    ensures Next(s, AskChange(s.approver, AddReceiver, x, i)).0 == s.(requests := s.requests + [Asked(s, x, i)])
  {
    hide HasBare, D.Lists, HasColon;
    assert Objection(s, AddReceiver, x) == None;
  }

  lemma NewcomerAsks(s: State, x: string, i: string, j: string)
    requires Newcomer(s, x)
    ensures Next(s.(requests := s.requests + [Asked(s, x, i)]), AskSubscription(x, AddSender, j)).0
         == s.(requests := s.requests + [Asked(s, x, i), Asking(x, j)])
  {
    NewcomerUnlisted(s, x);
    hide HasBare, D.Lists, HasColon;
    var t := s.(requests := s.requests + [Asked(s, x, i)]);
    assert !IsParticipant(t, x);
    hide IsParticipant;
    assert t.requests[|s.requests|].requester != x;
    assert forall k | 0 <= k < |s.requests| :: t.requests[k] == s.requests[k];
    assert t.requests + [Asking(x, j)] == s.requests + [Asked(s, x, i), Asking(x, j)];
  }

  lemma NewcomerReceives(s: State, x: string, i: string, j: string)
    requires Newcomer(s, x) && NewId(s.requests, i)
    ensures var t := Next(s.(requests := s.requests + [Asked(s, x, i), Asking(x, j)]), ApprovePerm(s.approver, i)).0;
      && t.senders == s.senders && t.receivers == s.receivers + [Qualify(s.kernel, x)]
      && t.requests == s.requests + [Asked(s, x, i).(decision := Approved(s.approver)), Asking(x, j)]
  {
    hide HasBare, D.Lists, HasColon, AddForeign, Find, Newcomer, Next;
    NewcomerUnlisted(s, x);
    var r := Asked(s, x, i);
    var s2 := s.(requests := s.requests + [r, Asking(x, j)]);
    FindNew(s.requests, r, Asking(x, j));
    assert s2.requests[|s.requests|] == r;
    NewcomerIsActive(s, x);
    assert PermittedName(s.kernel, r) == Qualify(s.kernel, x);
    hide PermittedName;
    ApprovalApplies(s2, |s.requests|, i);
  }

  lemma NewcomerIsActive(s: State, x: string)
    requires Newcomer(s, x)
    ensures s.status == N.Active && !HasColon(x)
  {
  }

  lemma ApprovalApplies(s: State, n: nat, i: string)
    requires s.status == N.Active && n < |s.requests| && Find(s.requests, i) == n
    requires s.requests[n].decision == Pending && ApplyPermission(s, s.requests[n]).1 == Done
    ensures var t := ApplyPermission(s, s.requests[n]).0;
      n < |t.requests| && Next(s, ApprovePerm(s.approver, i)).0 == Decide(t, n, Approved(s.approver))
  {
    ApplyKeepsRequests(s, s.requests[n]);
    hide ApplyPermission, Find;
  }

  lemma NewcomerSends(s: State, t: State, x: string, i: string, j: string)
    requires Newcomer(s, x) && NewId(s.requests, j) && i != j
    requires t.senders == s.senders && t.receivers == s.receivers + [Qualify(s.kernel, x)]
    requires t.requests == s.requests + [Asked(s, x, i).(decision := Approved(s.approver)), Asking(x, j)]
    ensures var u := Next(t, ApproveSub(s.approver, j)).0;
      u.senders == s.senders + [x] && u.receivers == s.receivers + [Qualify(s.kernel, x)]
  {
    NewcomerUnlisted(s, x);
    assert IsParticipant(t, s.approver) by {
      assert forall k | 0 <= k < |s.receivers| :: t.receivers[k] == s.receivers[k];
    }
    assert x !in t.receivers;
    assert SubscribedSender(Asking(x, j)) == x;
    hide IsParticipant, D.Lists, HasColon, SubscribedSender, Find, Newcomer;
    FindNew(s.requests, Asked(s, x, i).(decision := Approved(s.approver)), Asking(x, j));
    assert t.requests[|s.requests| + 1] == Asking(x, j);
  }

  /** Strings stay apart but connectors do not. In any active channel whose approver takes part, a
      connector asked for as a receiver by the approver and asking to be a sender itself ends up with
      both roles, under two spellings. */
  lemma OneConnectorGetsBothRoles(s: State, x: string, i: string, j: string)
    requires Newcomer(s, x) && NewId(s.requests, i) && NewId(s.requests, j) && i != j
    ensures var t := Run(s, [AskChange(s.approver, AddReceiver, x, i), AskSubscription(x, AddSender, j),
                             ApprovePerm(s.approver, i), ApproveSub(s.approver, j)]);
      && t.senders == s.senders + [x] && t.receivers == s.receivers + [Qualify(s.kernel, x)]
      && !BareApart(t.senders, t.receivers)
  {
    var ops := [AskChange(s.approver, AddReceiver, x, i), AskSubscription(x, AddSender, j),
                ApprovePerm(s.approver, i), ApproveSub(s.approver, j)];
    var s2 := s.(requests := s.requests + [Asked(s, x, i), Asking(x, j)]);
    NewcomerIsAskedFor(s, x, i);
    NewcomerAsks(s, x, i, j);
    NewcomerReceives(s, x, i, j);
    NewcomerSends(s, Next(s2, ops[2]).0, x, i, j);
    NewcomerIsActive(s, x);
    hide Next, Run, Newcomer, BareApart, Qualify, HasColon;
    FourSteps(s, ops);
    TwoSpellings(s.senders, s.receivers, s.kernel, x);
  }

  lemma TwoSpellings(senders: seq<string>, receivers: seq<string>, kernel: string, x: string)
    requires !HasColon(x)
    ensures !BareApart(senders + [x], receivers + [Qualify(kernel, x)])
  {
    BareOfQualified(kernel, x);
    var a, b := senders + [x], receivers + [Qualify(kernel, x)];
    assert Bare(a[|senders|]) == Bare(b[|receivers|]);
  }

  lemma BareApartGrows(senders: seq<string>, receivers: seq<string>, name: string)
    requires BareApart(senders, receivers)
    ensures BareApart(senders + [name], receivers) <==> !D.Lists(receivers, name)
    ensures BareApart(senders, receivers + [name]) <==> !D.Lists(senders, name)
  {
    assert (senders + [name])[|senders|] == name && (receivers + [name])[|receivers|] == name;
    assert forall i | 0 <= i < |senders| :: (senders + [name])[i] == senders[i];
    assert forall i | 0 <= i < |receivers| :: (receivers + [name])[i] == receivers[i];
  }

  /** An approval keeps connectors apart exactly when the other list holds no spelling of the name. */
  lemma ApprovalKeepsConnectorsApart(s: State, r: Request)
    requires BareApart(s.senders, s.receivers)
    ensures ApplySubscription(s, r).1 == Done ==>
      var t := ApplySubscription(s, r).0;
      BareApart(t.senders, t.receivers) <==>
        if r.change == AddSender then !D.Lists(s.receivers, SubscribedSender(r))
        else !D.Lists(s.senders, SubscribedReceiver(r))
    ensures ApplyPermission(s, r).1 == Done && (r.change == AddSender || r.change == AddReceiver) ==>
      var t := ApplyPermission(s, r).0;
      BareApart(t.senders, t.receivers) <==>
        !D.Lists(if r.change == AddSender then s.receivers else s.senders, PermittedName(s.kernel, r))
  {
    hide BareApart, D.Lists, PermittedName, SubscribedSender, SubscribedReceiver, AddForeign, RemoveFirst;
    BareApartGrows(s.senders, s.receivers, SubscribedSender(r));
    BareApartGrows(s.senders, s.receivers, SubscribedReceiver(r));
    BareApartGrows(s.senders, s.receivers, PermittedName(s.kernel, r));
  }

  /** Taking out the first entry of that name. */
  lemma RemoveFirstExactly(ids: seq<string>, name: string)
    ensures var rest := RemoveFirst(ids, name);
      && multiset(rest) == multiset(ids) - multiset{name}
      && (rest != ids <==> name in ids)
      && (rest == [] <==> ids == [] || ids == [name])
  {
    RemoveFirstKeeps(ids, name);
    if name !in ids {
      RemoveMissing(ids, name);
    } else {
      RemoveOne(ids, name);
    }
  }

  lemma {:induction false} RemoveOne(ids: seq<string>, name: string)
    requires name in ids
    ensures |RemoveFirst(ids, name)| == |ids| - 1
  {
    if ids[0] != name {
      RemoveOne(ids[1..], name);
    }
  }

  /** An approved removal takes out one entry of its list exactly when the request spells it as the list
      does - for a sender after the requester's kernel is put before a bare name, for a receiver as it
      stands; a request accepted for the connector's other spelling is approved without effect. The list
      is left empty exactly when that was its only entry, for the count is not taken again. */
  lemma RemovalTakesEffectExactly(s: State, r: Request)
    requires r.change == RemoveSender || r.change == RemoveReceiver
    ensures var (t, o) := ApplyPermission(s, r);
      var before, after, name := if r.change == RemoveSender then s.senders else s.receivers,
                                 if r.change == RemoveSender then t.senders else t.receivers,
                                 if r.change == RemoveSender then RemovedSender(r) else r.target;
      && o == Done
      && t == (if r.change == RemoveSender then s.(senders := after) else s.(receivers := after))
      && multiset(after) == multiset(before) - multiset{name}
      && (after != before <==> name in before)
      && (after == [] <==> before == [] || before == [name])
  {
    hide RemoveFirst, RemovedSender, PermittedName;
    RemoveFirstExactly(s.senders, RemovedSender(r));
    RemoveFirstExactly(s.receivers, r.target);
  }

  function Removal(i: string, who: string, target: string): Request {
    Request(i, who, RemoveReceiver, target, Pending)
  }

  lemma RemovalIsFiled(s: State, who: string, target: string, i: string)
    requires s.status == N.Active && IsParticipant(s, who) && target in s.receivers && |s.receivers| >= 2
    ensures Next(s, AskChange(who, RemoveReceiver, target, i)).0
         == s.(requests := s.requests + [Removal(i, who, target)])
  {
    hide IsParticipant;
    assert D.Lists(s.receivers, target);
    hide D.Lists;
  }

  lemma RemovalIsApproved(s: State, n: nat, i: string)
    requires s.status == N.Active && n < |s.requests| && Find(s.requests, i) == n
    requires s.requests[n].change == RemoveReceiver && s.requests[n].decision == Pending
    ensures Next(s, ApprovePerm(s.approver, i)).0
         == Decide(s.(receivers := RemoveFirst(s.receivers, s.requests[n].target)), n, Approved(s.approver))
  {
    hide Find, PermittedName, RemoveFirst, Next;
    ApprovalApplies(s, n, i);
  }

  lemma BothRemovalsApproved(s: State, filed: seq<Request>, ra: Request, rb: Request)
    requires s.status == N.Active && s.requests == filed + [ra, rb] && s.receivers == [ra.target, rb.target]
    requires ra.change == rb.change == RemoveReceiver && ra.decision == rb.decision == Pending
    requires NewId(filed, ra.id) && NewId(filed, rb.id) && ra.id != rb.id
    ensures Next(Next(s, ApprovePerm(s.approver, ra.id)).0, ApprovePerm(s.approver, rb.id)).0.receivers == []
  {
    hide Next, Find;
    var n, done := |filed|, ra.(decision := Approved(s.approver));
    FindNew(filed, ra, rb);
    RemovalIsApproved(s, n, ra.id);
    assert RemoveFirst([ra.target, rb.target], ra.target) == [rb.target];
    var t := Next(s, ApprovePerm(s.approver, ra.id)).0;
    assert t.requests == filed + [done, rb];
    FindNew(filed, done, rb);
    RemovalIsApproved(t, n + 1, rb.id);
    assert RemoveFirst([rb.target], rb.target) == [];
  }

  /** The last receiver cannot be asked away, but from any active channel with exactly two receivers both
      can: asked for one after the other and then approved, the two removals leave the list empty. */
  lemma ListCanBecomeEmpty(s: State, who: string, i: string, j: string)
    requires s.status == N.Active && IsParticipant(s, who) && |s.receivers| == 2
    requires NewId(s.requests, i) && NewId(s.requests, j) && i != j
    ensures var a, b := s.receivers[0], s.receivers[1];
      Run(s, [AskChange(who, RemoveReceiver, a, i), AskChange(who, RemoveReceiver, b, j),
              ApprovePerm(s.approver, i), ApprovePerm(s.approver, j)]).receivers == []
  {
    hide Next, Run;
    var a, b := s.receivers[0], s.receivers[1];
    var ra, rb := Removal(i, who, a), Removal(j, who, b);
    var s1 := s.(requests := s.requests + [ra]);
    RemovalIsFiled(s, who, a, i);
    assert IsParticipant(s1, who);
    hide IsParticipant;
    RemovalIsFiled(s1, who, b, j);
    var s2 := Next(s1, AskChange(who, RemoveReceiver, b, j)).0;
    assert s2.requests == s.requests + [ra, rb] && s2.receivers == [a, b];
    BothRemovalsApproved(s2, s.requests, ra, rb);
    FourSteps(s, [AskChange(who, RemoveReceiver, a, i), AskChange(who, RemoveReceiver, b, j),
                  ApprovePerm(s.approver, i), ApprovePerm(s.approver, j)]);
  }

  // ------------------------------------------------------------------------------------------
  // Names listed twice
  // ------------------------------------------------------------------------------------------

  lemma NoDuplicatesGrows(ids: seq<string>, name: string)
    requires N.NoDuplicates(ids)
    ensures N.NoDuplicates(ids + [name]) <==> name !in ids
  {
    var all := ids + [name];
    assert all[|ids|] == name && forall i | 0 <= i < |ids| :: all[i] == ids[i];
  }

  /** A permission approval looks at the other list only, so it lists a name twice exactly when its own
      list has that name already. A subscription approval never does. */
  lemma ApprovalDuplicatesExactly(s: State, r: Request)
    requires N.NoDuplicates(s.senders) && N.NoDuplicates(s.receivers)
    requires r.change == AddSender || r.change == AddReceiver
    ensures var (t, o) := ApplyPermission(s, r);
      o == Done ==>
        (N.NoDuplicates(t.senders) && N.NoDuplicates(t.receivers) <==>
         PermittedName(s.kernel, r) !in if r.change == AddSender then s.senders else s.receivers)
    ensures var t := ApplySubscription(s, r).0; N.NoDuplicates(t.senders) && N.NoDuplicates(t.receivers)
  {
    hide N.NoDuplicates, PermittedName, SubscribedSender, SubscribedReceiver, AddForeign;
    NoDuplicatesGrows(s.senders, PermittedName(s.kernel, r));
    NoDuplicatesGrows(s.receivers, PermittedName(s.kernel, r));
    NoDuplicatesGrows(s.senders, SubscribedSender(r));
    NoDuplicatesGrows(s.receivers, SubscribedReceiver(r));
  }

  lemma SecondAsk(s: State, x: string, i: string, j: string)
    requires Newcomer(s, x)
    ensures var s1 := s.(requests := s.requests + [Asked(s, x, i)]);
      Next(s1, AskChange(s.approver, AddReceiver, x, j)).0
        == s.(requests := s.requests + [Asked(s, x, i), Asked(s, x, j)])
  {
    hide Next, D.Lists, HasBare, HasColon;
    NewcomerUnlisted(s, x);
    var s1 := s.(requests := s.requests + [Asked(s, x, i)]);
    assert forall k | 0 <= k < |s.requests| :: s1.requests[k] == s.requests[k];
    assert Newcomer(s1, x);
    NewcomerIsAskedFor(s1, x, j);
    assert s1.requests + [Asked(s1, x, j)] == s.requests + [Asked(s, x, i), Asked(s, x, j)];
  }

  /** Approving a request of the approver to add the receiver `x`. */
  lemma AddingIsApproved(s: State, n: nat, i: string, x: string)
    requires s.status == N.Active && !HasColon(x) && !HasColon(s.approver)
    requires n < |s.requests| && Find(s.requests, i) == n && s.requests[n] == Asked(s, x, i)
    requires Qualify(s.kernel, x) !in s.senders
    ensures var t := Next(s, ApprovePerm(s.approver, i)).0;
      && t == s.(receivers := s.receivers + [Qualify(s.kernel, x)], remote := t.remote, requests := t.requests)
      && t.requests == s.requests[n := Asked(s, x, i).(decision := Approved(s.approver))]
  {
    hide Next, Find, AddForeign;
    assert PermittedName(s.kernel, s.requests[n]) == Qualify(s.kernel, x);
    hide PermittedName, HasColon, Qualify;
    ApprovalApplies(s, n, i);
  }

  lemma BothAddingsApproved(s: State, filed: seq<Request>, x: string, i: string, j: string)
    requires s.status == N.Active && !HasColon(x) && !HasColon(s.approver) && Qualify(s.kernel, x) !in s.senders
    requires s.requests == filed + [Asked(s, x, i), Asked(s, x, j)]
    requires NewId(filed, i) && NewId(filed, j) && i != j
    ensures var t := Next(Next(s, ApprovePerm(s.approver, i)).0, ApprovePerm(s.approver, j)).0;
      && t.receivers == s.receivers + [Qualify(s.kernel, x), Qualify(s.kernel, x)]
      && t == s.(receivers := t.receivers, remote := t.remote, requests := t.requests)
      && |t.requests| == |s.requests| && forall k | 0 <= k < |t.requests| :: t.requests[k].id == s.requests[k].id
  {
    hide Next, Find, HasColon, Qualify;
    var n, a, b := |filed|, Asked(s, x, i), Asked(s, x, j);
    var done := a.(decision := Approved(s.approver));
    FindNew(filed, a, b);
    AddingIsApproved(s, n, i, x);
    var t := Next(s, ApprovePerm(s.approver, i)).0;
    assert t.requests == filed + [done, b];
    FindNew(filed, done, b);
    AddingIsApproved(t, n + 1, j, x);
  }

  lemma RemovalLeavesOne(ids: seq<string>, name: string)
    requires name !in ids
    ensures RemoveFirst(ids + [name, name], name) == ids + [name]
  {
    var all := ids + [name, name];
    assert all[..|ids|] == ids && all[|ids|] == name;
    RemoveFirstAt(all, |ids|);
    assert all[|ids| + 1..] == [name];
  }

  lemma RemovalRound(s: State, who: string, name: string, m: string)
    requires s.status == N.Active && IsParticipant(s, who) && name in s.receivers && |s.receivers| >= 2
    requires NewId(s.requests, m)
    ensures Next(Next(s, AskChange(who, RemoveReceiver, name, m)).0, ApprovePerm(s.approver, m)).0.receivers
         == RemoveFirst(s.receivers, name)
  {
    hide Next, IsParticipant, RemoveFirst, Find;
    var r := Removal(m, who, name);
    var s1 := s.(requests := s.requests + [r]);
    RemovalIsFiled(s, who, name, m);
    FindAppended(s.requests, r);
    assert s1.requests[|s.requests|] == r;
    RemovalIsApproved(s1, |s.requests|, m);
  }

  lemma FindAppended(requests: seq<Request>, r: Request)
    requires NewId(requests, r.id)
    ensures Find(requests + [r], r.id) == |requests|
  {
    var all := requests + [r];
    assert all[|requests|] == r && forall k | 0 <= k < |requests| :: all[k] == requests[k];
  }

  lemma {:induction false} RunInTwo(s: State, a: seq<Op>, b: seq<Op>)
    ensures Run(s, a + b) == Run(Run(s, a), b)
    decreases |a|
  {
    hide Next;
    if a == [] {
      assert a + b == b;
    } else {
      assert (a + b)[1..] == a[1..] + b;
      RunInTwo(Next(s, a[0]).0, a[1..], b);
    }
  }

  lemma TwoSteps(s: State, a: Op, b: Op)
    ensures Run(s, [a, b]) == Next(Next(s, a).0, b).0
  {
    hide Next;
    var s1 := Next(s, a).0;
    assert [a, b][1..] == [b] && [b][1..] == [];
    assert Run(s1, [b]) == Run(Next(s1, b).0, []);
  }

  function TwiceOps(s: State, x: string, i: string, j: string): seq<Op> {
    [AskChange(s.approver, AddReceiver, x, i), AskChange(s.approver, AddReceiver, x, j),
     ApprovePerm(s.approver, i), ApprovePerm(s.approver, j)]
  }

  function RemoveOps(s: State, x: string, m: string): seq<Op> {
    [AskChange(s.approver, RemoveReceiver, Qualify(s.kernel, x), m), ApprovePerm(s.approver, m)]
  }

  lemma ListedTwice(s: State, x: string, i: string, j: string)
    requires Newcomer(s, x) && NewId(s.requests, i) && NewId(s.requests, j) && i != j
    ensures var t, n := Run(s, TwiceOps(s, x, i, j)), Qualify(s.kernel, x);
      && t.receivers == s.receivers + [n, n]
      && t == s.(receivers := t.receivers, remote := t.remote, requests := t.requests)
      && forall id | NewId(s.requests, id) && id != i && id != j :: NewId(t.requests, id)
  {
    hide Next, Run, Newcomer, HasColon, Qualify, NewId, IsParticipant;
    NewcomerUnlisted(s, x);
    NewcomerIsActive(s, x);
    NewcomerIsAskedFor(s, x, i);
    SecondAsk(s, x, i, j);
    var s2 := s.(requests := s.requests + [Asked(s, x, i), Asked(s, x, j)]);
    BothAddingsApproved(s2, s.requests, x, i, j);
    FourSteps(s, TwiceOps(s, x, i, j));
    StillNew(s.requests, Asked(s, x, i), Asked(s, x, j), Run(s, TwiceOps(s, x, i, j)).requests);
  }

  lemma StillNew(filed: seq<Request>, a: Request, b: Request, after: seq<Request>)
    requires |after| == |filed| + 2
    requires forall k | 0 <= k < |after| :: after[k].id == (filed + [a, b])[k].id
    ensures forall id | NewId(filed, id) && id != a.id && id != b.id :: NewId(after, id)
  {
  }

  /** A connector asked for twice before the first approval is listed twice by the two approvals, and an
      approved removal then leaves it listed. */
  lemma RemovalLeavesConnectorListed(s: State, x: string, i: string, j: string, m: string)
    requires Newcomer(s, x) && NewId(s.requests, i) && NewId(s.requests, j) && NewId(s.requests, m)
    requires i != j && i != m && j != m
    ensures Run(s, TwiceOps(s, x, i, j)).receivers == s.receivers + [Qualify(s.kernel, x), Qualify(s.kernel, x)]
    ensures Run(s, TwiceOps(s, x, i, j) + RemoveOps(s, x, m)).receivers == s.receivers + [Qualify(s.kernel, x)]
  {
    hide Next, Run, HasColon, Qualify, RemoveFirst, D.Lists;
    var t, n := Run(s, TwiceOps(s, x, i, j)), Qualify(s.kernel, x);
    ListedTwice(s, x, i, j);
    NewcomerStays(s, t, x);
    hide Newcomer, IsParticipant;
    RunInTwo(s, TwiceOps(s, x, i, j), RemoveOps(s, x, m));
    TwoSteps(t, RemoveOps(s, x, m)[0], RemoveOps(s, x, m)[1]);
    assert RemoveOps(s, x, m) == [RemoveOps(s, x, m)[0], RemoveOps(s, x, m)[1]];
    RemovalRound(t, s.approver, n, m);
    RemovalLeavesOne(s.receivers, n);
  }

  lemma NewcomerStays(s: State, t: State, x: string)
    requires Newcomer(s, x) && t.senders == s.senders && s.receivers <= t.receivers && t.status == s.status
    ensures t.status == N.Active && IsParticipant(t, s.approver) && Qualify(s.kernel, x) !in s.receivers
  {
    assert forall k | 0 <= k < |s.receivers| :: t.receivers[k] == s.receivers[k];
    Unlisted(s.receivers, s.kernel, x);
  }
}
