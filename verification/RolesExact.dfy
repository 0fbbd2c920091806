/** What the list changes come to: which requests are filed, refused and decided, which names they add
    and take away, and what an update from another kernel leaves, each said of the names themselves. */
module RolesExact {
  import opened Wrappers
  import opened Names
  import opened Roles
  import opened RolesRuns
  import N = Negotiation
  import D = Delivery

  // ------------------------------------------------------------------------------------------
  // Who is listed
  // ------------------------------------------------------------------------------------------

  /** The connector is listed, bare or under some kernel. */
  ghost predicate Listed(ids: seq<string>, x: string) {
    x in ids || exists k :: Qualify(k, x) in ids
  }

  lemma QualifiedByBare(s: string)
    requires HasColon(s)
    ensures exists k :: s == Qualify(k, Bare(s))
  {
    var i := LastColon(s);
    assert s == s[..i] + [s[i]] + s[i + 1..];
    assert s == Qualify(s[..i], Bare(s));
  }

  /** The scan for a participant finds exactly the plain names that are listed. */
  lemma HasBareExactly(ids: seq<string>, x: string)
    ensures HasBare(ids, x) <==> !HasColon(x) && Listed(ids, x)
  {
    hide Bare, HasColon, Qualify;
    if HasBare(ids, x) {
      var i :| 0 <= i < |ids| && Bare(ids[i]) == x;
      if HasColon(ids[i]) {
        QualifiedByBare(ids[i]);
      }
    }
    if !HasColon(x) && Listed(ids, x) {
      if x in ids {
        var i :| 0 <= i < |ids| && ids[i] == x;
        assert Bare(ids[i]) == x;
      } else {
        var k :| Qualify(k, x) in ids;
        var i :| 0 <= i < |ids| && ids[i] == Qualify(k, x);
        BareOfQualified(k, x);
      }
    }
  }

  /** The role tests ask the same of the bare name. */
  lemma ListsExactly(ids: seq<string>, id: string)
    ensures D.Lists(ids, id) <==> Listed(ids, Bare(id))
  {
    hide Listed, HasColon;
    HasBareExactly(ids, Bare(id));
  }

  ghost predicate TakesPart(s: State, who: string) {
    !HasColon(who) && (Listed(s.senders, who) || Listed(s.receivers, who))
  }

  lemma ParticipantExactly(s: State, who: string)
    ensures IsParticipant(s, who) <==> TakesPart(s, who)
  {
    hide HasBare, Listed, HasColon;
    HasBareExactly(s.senders, who);
    HasBareExactly(s.receivers, who);
  }

  // ------------------------------------------------------------------------------------------
  // Which requests are filed
  // ------------------------------------------------------------------------------------------

  /** What a participant may ask for: adding a connector that has no role, and taking one of at least two
      entries out of a list that has the connector. */
  ghost predicate MayAsk(s: State, change: Change, x: string) {
    match change
    case AddSender => !Listed(s.senders, x) && !Listed(s.receivers, x)
    case AddReceiver => !Listed(s.senders, x) && !Listed(s.receivers, x)
    case RemoveSender => Listed(s.senders, x) && |s.senders| >= 2
    case RemoveReceiver => Listed(s.receivers, x) && |s.receivers| >= 2
    case Unknown(_) => false
  }

  /** A participant's request is filed, as pending, exactly when the channel is active and the change may
      be asked for; otherwise nothing changes. */
  lemma ChangeFiledExactly(s: State, who: string, change: Change, target: string, id: string)
    ensures var (t, o) := RequestChange(s, who, change, target, id);
      && (o == Done <==> s.status == N.Active && TakesPart(s, who) && MayAsk(s, change, Bare(target)))
      && t == if o == Done then s.(requests := s.requests + [Request(id, who, change, target, Pending)]) else s
  {
    hide IsParticipant, TakesPart, D.Lists, Listed, Bare;
    ParticipantExactly(s, who);
    ListsExactly(s.senders, target);
    ListsExactly(s.receivers, target);
  }

  /** The last sender and the last receiver cannot be asked away, and the refusal says so. */
  lemma LastStays(s: State, who: string, target: string, id: string)
    requires s.status == N.Active && TakesPart(s, who)
    ensures |s.senders| == 1 && Listed(s.senders, Bare(target)) ==>
      RequestChange(s, who, RemoveSender, target, id) == (s, Refused(LastSender))
    ensures |s.receivers| == 1 && Listed(s.receivers, Bare(target)) ==>
      RequestChange(s, who, RemoveReceiver, target, id) == (s, Refused(LastReceiver))
  {
    hide IsParticipant, TakesPart, D.Lists, Listed, Bare;
    ParticipantExactly(s, who);
    ListsExactly(s.senders, target);
    ListsExactly(s.receivers, target);
  }

  /** `who` has a request that nobody has decided. */
  predicate Waits(requests: seq<Request>, who: string) {
    exists r :: r in requests && r.requester == who && r.decision == Pending
  }

  /** An outsider's request is filed exactly when the channel is active, it asks for one of the two roles
      and the outsider neither takes part nor waits already. */
  lemma SubscriptionFiledExactly(s: State, who: string, change: Change, id: string)
    ensures var (t, o) := RequestSubscription(s, who, change, id);
      && (o == Done <==>
           s.status == N.Active && (change == AddSender || change == AddReceiver) && !TakesPart(s, who)
           && !Waits(s.requests, who))
      && t == if o == Done then s.(requests := s.requests + [Request(id, who, change, who, Pending)]) else s
  {
    hide IsParticipant, TakesPart;
    ParticipantExactly(s, who);
  }

  /** A request from another kernel is stored, as pending, exactly when its id is new and it would not give
      a listed connector the other role. */
  lemma StoredExactly(s: State, r: Request)
    ensures StoreRemote(s, r)
         == if NewId(s.requests, r.id)
               && !(r.change == AddSender && Listed(s.receivers, Bare(r.target)))
               && !(r.change == AddReceiver && Listed(s.senders, Bare(r.target)))
            then s.(requests := s.requests + [Request(r.id, r.requester, r.change, r.target, Pending)]) else s
  {
    hide D.Lists, Listed, Bare;
    ListsExactly(s.senders, r.target);
    ListsExactly(s.receivers, r.target);
  }

  // ------------------------------------------------------------------------------------------
  // Which requests are decided, and what that does
  // ------------------------------------------------------------------------------------------

  /** The names the approvals add and take away, by how requester and target are written. */
  lemma NamesWrittenOut(here: string, r: Request, k: string, c: string)
    ensures !HasColon(r.requester) ==> SubscribedSender(r) == SubscribedReceiver(r) == RemovedSender(r) == r.target
    ensures !HasColon(k) && r.requester == k + ":" + c ==>
      SubscribedSender(r) == k + ":" + c && SubscribedReceiver(r) == k + ":" + r.target
    ensures HasColon(r.target) ==> PermittedName(here, r) == RemovedSender(r) == r.target
    ensures !HasColon(r.target) && !HasColon(r.requester) ==> PermittedName(here, r) == here + ":" + r.target
    ensures !HasColon(r.target) && !HasColon(k) && r.requester == k + ":" + c ==>
      PermittedName(here, r) == RemovedSender(r) == k + ":" + r.target
  {
    if !HasColon(k) && r.requester == k + ":" + c {
      assert r.requester == Qualify(k, c);
      QualifySplits(k, c);
    }
  }

  /** The `n`th request is pending and the first of its id. */
  predicate Open(requests: seq<Request>, n: nat, id: string) {
    n < |requests| && requests[n].id == id && requests[n].decision == Pending && NewId(requests[..n], id)
  }

  lemma OpenExactly(requests: seq<Request>, n: nat, id: string)
    ensures Open(requests, n, id) <==> n == Find(requests, id) < |requests| && requests[n].decision == Pending
  {
    assert n < |requests| ==> forall k | 0 <= k < n :: requests[..n][k] == requests[k];
  }

  function Marked(requests: seq<Request>, n: nat, d: Decision): seq<Request>
    requires n < |requests|
  {
    requests[n := requests[n].(decision := d)]
  }

  /** A subscription is approved exactly when a participant approves an open request for a role whose name
      is in neither list; that list then has the name at its end, the request is marked, and nothing else
      changes. */
  lemma SubscriptionApprovedExactly(s: State, who: string, id: string, n: nat)
    requires n == Find(s.requests, id)
    ensures var (t, o) := ApproveSubscription(s, who, id);
      var r := if n < |s.requests| then s.requests[n] else Request("", "", Unknown(""), "", Pending);
      var name := if r.change == AddSender then SubscribedSender(r) else SubscribedReceiver(r);
      && (o == Done <==>
           TakesPart(s, who) && Open(s.requests, n, id) && (r.change == AddSender || r.change == AddReceiver)
           && name !in s.senders && name !in s.receivers)
      && (o != Done ==> t == s)
      && (o == Done && r.change == AddSender ==>
           t == s.(senders := s.senders + [name], requests := Marked(s.requests, n, Approved(who))))
      && (o == Done && r.change == AddReceiver ==>
           t == s.(receivers := s.receivers + [name], requests := Marked(s.requests, n, Approved(who))))
  {
    hide IsParticipant, TakesPart, Find, Open, SubscribedSender, SubscribedReceiver;
    ParticipantExactly(s, who);
    OpenExactly(s.requests, n, id);
  }

  /** Both rejections mark an open request and do nothing else: one by any participant, the other by the
      approver of an active channel, whose name it leaves out. */
  lemma RejectedExactly(s: State, who: string, id: string, n: nat)
    requires n == Find(s.requests, id)
    ensures var (t, o) := RejectSubscription(s, who, id);
      && (o == Done <==> TakesPart(s, who) && Open(s.requests, n, id))
      && (o != Done ==> t == s)
      && (o == Done ==> n < |s.requests| && t == s.(requests := Marked(s.requests, n, Rejected(who))))
    ensures var (t, o) := RejectPermission(s, who, id);
      && (o == Done <==> s.status == N.Active && who == s.approver && Open(s.requests, n, id))
      && (o != Done ==> t == s)
      && (o == Done ==> n < |s.requests| && t == s.(requests := Marked(s.requests, n, Rejected(""))))
  {
    hide IsParticipant, TakesPart, Find, Open;
    ParticipantExactly(s, who);
    OpenExactly(s.requests, n, id);
  }

  /** A permission change is approved exactly when the approver of an active channel approves an open
      request that does not add a name of the other list. */
  lemma PermissionApprovedExactly(s: State, who: string, id: string, n: nat)
    requires n == Find(s.requests, id)
    ensures var (t, o) := ApprovePermission(s, who, id);
      var r := if n < |s.requests| then s.requests[n] else Request("", "", Unknown(""), "", Pending);
      var name := PermittedName(s.kernel, r);
      && (o == Done <==>
           s.status == N.Active && who == s.approver && Open(s.requests, n, id)
           && !(r.change == AddSender && name in s.receivers) && !(r.change == AddReceiver && name in s.senders))
      && (o != Done ==> t == s)
      && (o == Done ==> n < |s.requests| && t.requests == Marked(s.requests, n, Approved(who)))
  {
    hide Find, Open, PermittedName, RemovedSender, AddForeign, RemoveFirst;
    OpenExactly(s.requests, n, id);
  }

  /** What an approved permission change does: an addition puts the name at the end of its list and learns
      the kernels of the foreign names in the other; a removal takes out one entry and keeps the order of the
      rest; an unknown change does nothing. */
  lemma PermissionEffect(s: State, who: string, id: string, n: nat)
    requires Open(s.requests, n, id) && ApprovePermission(s, who, id).1 == Done
    ensures var t, r := ApprovePermission(s, who, id).0, s.requests[n];
      && t.status == s.status && t.kernel == s.kernel && t.approver == s.approver
      && (match r.change
          case AddSender =>
            t == s.(senders := s.senders + [PermittedName(s.kernel, r)], requests := t.requests,
                    remote := AddForeign(s.remote, s.kernel, s.receivers))
          case AddReceiver =>
            t == s.(receivers := s.receivers + [PermittedName(s.kernel, r)], requests := t.requests,
                    remote := AddForeign(s.remote, s.kernel, s.senders))
          case RemoveSender =>
            TakenOut(s.senders, RemovedSender(r), t.senders) && t == s.(senders := t.senders, requests := t.requests)
          case RemoveReceiver =>
            TakenOut(s.receivers, r.target, t.receivers) && t == s.(receivers := t.receivers, requests := t.requests)
          case Unknown(_) => t == s.(requests := t.requests))
  {
    hide Find, Open, PermittedName, RemovedSender, AddForeign, RemoveFirst, TakenOut;
    OpenExactly(s.requests, n, id);
    RemoveFirstTakesOut(s.senders, RemovedSender(s.requests[n]));
    RemoveFirstTakesOut(s.receivers, s.requests[n].target);
  }

  /** Nothing of that name was there, or its first entry is gone. */
  predicate TakenOut(before: seq<string>, name: string, after: seq<string>) {
    || (name !in before && after == before)
    || exists i :: 0 <= i < |before| && before[i] == name && name !in before[..i]
                   && after == before[..i] + before[i + 1..]
  }

  lemma {:induction false} RemoveFirstTakesOut(ids: seq<string>, name: string)
    ensures TakenOut(ids, name, RemoveFirst(ids, name))
  {
    if name !in ids {
      RemoveMissing(ids, name);
    } else {
      var i := FirstAt(ids, name);
      RemoveFirstAt(ids, i);
    }
  }

  function FirstAt(ids: seq<string>, name: string): (i: nat)
    requires name in ids
    ensures i < |ids| && ids[i] == name && name !in ids[..i]
  {
    if ids[0] == name then 0
    else
      var i := FirstAt(ids[1..], name);
      assert ids[..i + 1] == [ids[0]] + ids[1..][..i];
      i + 1
  }

  // ------------------------------------------------------------------------------------------
  // Updates between kernels
  // ------------------------------------------------------------------------------------------

  lemma {:induction false} AddRemoteInTwo(remote: map<string, string>, a: seq<string>, b: seq<string>)
    ensures AddRemote(remote, a + b) == AddRemote(AddRemote(remote, a), b)
  {
    if b == [] {
      assert a + b == a;
    } else {
      var n := |b| - 1;
      AddRemoteInTwo(remote, a, b[..n]);
      assert (a + b)[..|a| + n] == a + b[..n] && (a + b)[|a| + n] == b[n];
    }
  }

  lemma {:induction false} WorldInTwo(w: World, a: seq<Step>, b: seq<Step>)
    ensures WorldRun(w, a + b) == WorldRun(WorldRun(w, a), b)
    decreases |a|
  {
    hide WorldNext;
    if a == [] {
      assert a + b == b;
    } else {
      assert (a + b)[1..] == a[1..] + b;
      WorldInTwo(WorldNext(w, a[0]), a[1..], b);
    }
  }

  /** Announcements are never withdrawn, and no copy comes or goes. */
  lemma {:induction false} UpdatesStay(w: World, steps: seq<Step>)
    ensures w.updates <= WorldRun(w, steps).updates && WorldRun(w, steps).copies.Keys == w.copies.Keys
    decreases |steps|
  {
    hide Next;
    if steps != [] {
      UpdatesStay(WorldNext(w, steps[0]), steps[1..]);
    }
  }

  lemma OneWorldStep(w: World, step: Step)
    ensures WorldRun(w, [step]) == WorldNext(w, step)
  {
    hide WorldNext;
    assert [step][1..] == [];
    assert WorldRun(WorldNext(w, step), []) == WorldNext(w, step);
  }

  /** What kernel `j`'s copy `before` is after taking the lists of `from`. */
  ghost predicate TookOver(before: State, after: State, from: State, status: Option<N.Status>) {
    && after.senders == from.senders && after.receivers == from.receivers
    && after.status == (match status case Some(st) => st case None => before.status)
    && after == before.(senders := after.senders, receivers := after.receivers, status := after.status,
                        remote := after.remote)
    && (forall c, k, i | LastOf(from.senders + from.receivers, c, k, i) :: c in after.remote && after.remote[c] == k)
    && (forall c | NoEntry(from.senders + from.receivers, c) ::
          (c in after.remote <==> c in before.remote) && (c in after.remote ==> after.remote[c] == before.remote[c]))
  }

  ghost predicate NoEntry(ids: seq<string>, c: string) {
    forall i | 0 <= i < |ids| :: !EntryOf(ids[i], c)
  }

  lemma UpdateTakesOver(s: State, from: State, status: Option<N.Status>)
    ensures TookOver(s, Update(s, from.senders, from.receivers, status), from, status)
  {
    hide AddRemote, LastOf, EntryOf;
    var t, all := Update(s, from.senders, from.receivers, status), from.senders + from.receivers;
    AddRemoteInTwo(s.remote, from.senders, from.receivers);
    forall c
      ensures forall k, i | LastOf(all, c, k, i) :: c in t.remote && t.remote[c] == k
      ensures NoEntry(all, c) ==>
        (c in t.remote <==> c in s.remote) && (c in t.remote ==> t.remote[c] == s.remote[c])
    {
      RemoteLearned(s.remote, all, c);
    }
  }

  /** Kernel `k` announces its lists and, after whatever steps on whatever copies, kernel `j` takes that
      announcement. Its senders and receivers are then exactly what `k`'s were at the announcement; a given
      status is taken over and an absent one leaves the status; every qualified connector of the lists is
      known at its kernel, and no other copy changes. */
  lemma AnnouncedListsAreTaken(w: World, k: string, j: string, mid: seq<Step>, status: Option<N.Status>)
    requires k in w.copies && j in w.copies
    ensures var from := w.copies[k];
      var before := WorldRun(w, [Announce(k)] + mid);
      var after := WorldRun(w, [Announce(k)] + mid + [At(j, TakeUpdate(from.senders, from.receivers, status))]);
      && j in before.copies && after.copies.Keys == before.copies.Keys
      && TookOver(before.copies[j], after.copies[j], from, status)
      && forall l | l in after.copies && l != j :: after.copies[l] == before.copies[l]
  {
    hide WorldRun, TookOver, Update, Next;
    var from := w.copies[k];
    var w1, last := WorldNext(w, Announce(k)), At(j, TakeUpdate(from.senders, from.receivers, status));
    assert (from.senders, from.receivers) in w1.updates;
    OneWorldStep(w, Announce(k));
    WorldInTwo(w, [Announce(k)], mid);
    UpdatesStay(w1, mid);
    var before := WorldRun(w, [Announce(k)] + mid);
    WorldInTwo(w, [Announce(k)] + mid, [last]);
    OneWorldStep(before, last);
    NextIsUpdate(before.copies[j], from, status);
    UpdateTakesOver(before.copies[j], from, status);
  }

  lemma NextIsUpdate(s: State, from: State, status: Option<N.Status>)
    ensures Next(s, TakeUpdate(from.senders, from.receivers, status)).0
         == Update(s, from.senders, from.receivers, status)
  {
    hide Update;
  }
}
