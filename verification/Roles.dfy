/** Changes of a channel's sender and receiver lists (`kernel/circulation/channel_manager.go`): requests
    by outsiders and by participants are kept in one list, which two pairs of approve and reject
    operations share; other kernels send requests and whole lists. The fresh request id is a
    parameter. */
module Roles {
  import opened Wrappers
  import opened Names
  import N = Negotiation
  import D = Delivery

  datatype Change = AddSender | RemoveSender | AddReceiver | RemoveReceiver | Unknown(name: string)

  datatype Decision = Pending | Approved(who: string) | Rejected(who: string)

  datatype Request = Request(id: string, requester: string, change: Change, target: string, decision: Decision)

  datatype Refusal =
    | NotActive | BadRole | AlreadyParticipant | AlreadyRequested | NotParticipant | NotApprover | NotFound | NotPending
    | AlreadySender | AlreadyReceiver | NotSender | NotReceiver | LastSender | LastReceiver | BadChange

  datatype Outcome = Done | Refused(why: Refusal)

  /** A copy of a channel, as far as its lists are concerned. */
  datatype State = State(
    kernel: string, approver: string, status: N.Status, senders: seq<string>, receivers: seq<string>,
    remote: map<string, string>, requests: seq<Request>)

  // ------------------------------------------------------------------------------------------
  // Specification functions
  // ------------------------------------------------------------------------------------------

  predicate HasBare(ids: seq<string>, who: string) {
    exists i :: 0 <= i < |ids| && Bare(ids[i]) == who
  }

  predicate IsParticipant(s: State, who: string) {
    HasBare(s.senders, who) || HasBare(s.receivers, who)
  }

  function Find(requests: seq<Request>, id: string): (n: nat)
    ensures n <= |requests|
    ensures n < |requests| ==> requests[n].id == id
    ensures forall i | 0 <= i < n :: requests[i].id != id
  {
    if requests == [] then 0
    else if requests[0].id == id then 0
    else 1 + Find(requests[1..], id)
  }

  function RemoveFirst(ids: seq<string>, name: string): seq<string> {
    if ids == [] then []
    else if ids[0] == name then ids[1..]
    else [ids[0]] + RemoveFirst(ids[1..], name)
  }

  function Refuse(s: State, why: Refusal): (State, Outcome) {
    (s, Refused(why))
  }

  function Filed(s: State, r: Request): (State, Outcome) {
    (s.(requests := s.requests + [r]), Done)
  }

  ghost function RequestSubscription(s: State, who: string, change: Change, id: string): (State, Outcome) {
    if s.status != N.Active then Refuse(s, NotActive)
    else if change != AddSender && change != AddReceiver then Refuse(s, BadRole)
    else if IsParticipant(s, who) then Refuse(s, AlreadyParticipant)
    else if exists i :: 0 <= i < |s.requests| && s.requests[i].requester == who && s.requests[i].decision == Pending
    then Refuse(s, AlreadyRequested)
    else Filed(s, Request(id, who, change, who, Pending))
  }

  /** Why a participant's request is turned down at once. */
  ghost function Objection(s: State, change: Change, target: string): Option<Refusal> {
    var sends, receives := D.Lists(s.senders, target), D.Lists(s.receivers, target);
    match change
    case AddSender => if sends then Some(AlreadySender) else if receives then Some(AlreadyReceiver) else None
    case AddReceiver => if receives then Some(AlreadyReceiver) else if sends then Some(AlreadySender) else None
    case RemoveSender => if !sends then Some(NotSender) else if |s.senders| <= 1 then Some(LastSender) else None
    case RemoveReceiver =>
      if !receives then Some(NotReceiver) else if |s.receivers| <= 1 then Some(LastReceiver) else None
    case Unknown(_) => Some(BadChange)
  }

  ghost function RequestChange(s: State, who: string, change: Change, target: string, id: string): (State, Outcome) {
    if s.status != N.Active then Refuse(s, NotActive)
    else if !IsParticipant(s, who) then Refuse(s, NotParticipant)
    else match Objection(s, change, target)
      case Some(why) => Refuse(s, why)
      case None => Filed(s, Request(id, who, change, target, Pending))
  }

  /** A request filed by another kernel; anything wrong with it is ignored. */
  ghost function StoreRemote(s: State, r: Request): State {
    if Find(s.requests, r.id) < |s.requests| then s
    else if r.change == AddSender && D.Lists(s.receivers, r.target) then s
    else if r.change == AddReceiver && D.Lists(s.senders, r.target) then s
    else s.(requests := s.requests + [r.(decision := Pending)])
  }

  function Decide(s: State, n: nat, d: Decision): State
    requires n < |s.requests|
  {
    s.(requests := s.requests[n := s.requests[n].(decision := d)])
  }

  /** The names the two approval paths add. */
  function SubscribedSender(r: Request): string {
    if HasColon(r.requester) then r.requester else r.target
  }

  function SubscribedReceiver(r: Request): string {
    if HasColon(r.requester) then Qualify(KernelOf(r.requester), r.target) else r.target
  }

  function PermittedName(kernel: string, r: Request): string {
    if HasColon(r.target) then r.target
    else if HasColon(r.requester) then Qualify(KernelOf(r.requester), r.target)
    else Qualify(kernel, r.target)
  }

  function RemovedSender(r: Request): string {
    if !HasColon(r.target) && HasColon(r.requester) then Qualify(KernelOf(r.requester), r.target) else r.target
  }

  /** Subscription approval applied to the lists. */
  function ApplySubscription(s: State, r: Request): (State, Outcome) {
    match r.change
    case AddSender =>
      var name := SubscribedSender(r);
      if name in s.senders then Refuse(s, AlreadySender)
      else if name in s.receivers then Refuse(s, AlreadyReceiver)
      else (s.(senders := s.senders + [name]), Done)
    case AddReceiver =>
      var name := SubscribedReceiver(r);
      if name in s.receivers then Refuse(s, AlreadyReceiver)
      else if name in s.senders then Refuse(s, AlreadySender)
      else (s.(receivers := s.receivers + [name]), Done)
    case _ => Refuse(s, BadChange)
  }

  /** Permission approval applied to the lists. A removal that matches nothing and an unknown change
      count as done. */
  function ApplyPermission(s: State, r: Request): (State, Outcome) {
    var name := PermittedName(s.kernel, r);
    match r.change
    case AddSender =>
      if name in s.receivers then Refuse(s, AlreadyReceiver)
      else (s.(senders := s.senders + [name], remote := AddForeign(s.remote, s.kernel, s.receivers)), Done)
    case AddReceiver =>
      if name in s.senders then Refuse(s, AlreadySender)
      else (s.(receivers := s.receivers + [name], remote := AddForeign(s.remote, s.kernel, s.senders)), Done)
    case RemoveSender => (s.(senders := RemoveFirst(s.senders, RemovedSender(r))), Done)
    case RemoveReceiver => (s.(receivers := RemoveFirst(s.receivers, r.target)), Done)
    case Unknown(_) => (s, Done)
  }

  ghost function ApproveSubscription(s: State, who: string, id: string): (State, Outcome) {
    var n := Find(s.requests, id);
    if !IsParticipant(s, who) then Refuse(s, NotParticipant)
    else if n == |s.requests| then Refuse(s, NotFound)
    else if s.requests[n].decision != Pending then Refuse(s, NotPending)
    else
      var (t, o) := ApplySubscription(s, s.requests[n]);
      if o == Done then (Decide(t, n, Approved(who)), Done) else (s, o)
  }

  ghost function RejectSubscription(s: State, who: string, id: string): (State, Outcome) {
    var n := Find(s.requests, id);
    if !IsParticipant(s, who) then Refuse(s, NotParticipant)
    else if n == |s.requests| then Refuse(s, NotFound)
    else if s.requests[n].decision != Pending then Refuse(s, NotPending)
    else (Decide(s, n, Rejected(who)), Done)
  }

  function ApprovePermission(s: State, who: string, id: string): (State, Outcome) {
    var n := Find(s.requests, id);
    if s.status != N.Active then Refuse(s, NotActive)
    else if who != s.approver then Refuse(s, NotApprover)
    else if n == |s.requests| then Refuse(s, NotFound)
    else if s.requests[n].decision != Pending then Refuse(s, NotPending)
    else
      var (t, o) := ApplyPermission(s, s.requests[n]);
      if o == Done then (Decide(t, n, Approved(who)), Done) else (s, o)
  }

  function RejectPermission(s: State, who: string, id: string): (State, Outcome) {
    var n := Find(s.requests, id);
    if s.status != N.Active then Refuse(s, NotActive)
    else if who != s.approver then Refuse(s, NotApprover)
    else if n == |s.requests| then Refuse(s, NotFound)
    else if s.requests[n].decision != Pending then Refuse(s, NotPending)
    else (Decide(s, n, Rejected("")), Done)
  }

  function Update(s: State, senders: seq<string>, receivers: seq<string>, status: Option<N.Status>): State {
    s.(senders := senders, receivers := receivers,
       status := if status.Some? then status.value else s.status,
       remote := AddRemote(AddRemote(s.remote, senders), receivers))
  }

  // ------------------------------------------------------------------------------------------
  // The channel's methods
  // ------------------------------------------------------------------------------------------

  method ScanBare(ids: seq<string>, who: string) returns (found: bool)
    ensures found == HasBare(ids, who)
  {
    for i := 0 to |ids|
      invariant forall k | 0 <= k < i :: Bare(ids[k]) != who
    {
      var actual := ids[i];
      var at := LastColon(actual);
      if at != -1 {
        actual := actual[at + 1..];
      }
      if who == actual {
        return true;
      }
    }
    return false;
  }

  method Contains(ids: seq<string>, name: string) returns (found: bool)
    ensures found == (name in ids)
  {
    for i := 0 to |ids|
      invariant name !in ids[..i]
    {
      if ids[i] == name {
        return true;
      }
    }
    return false;
  }

  method FindRequest(requests: seq<Request>, id: string) returns (n: nat)
    ensures n == Find(requests, id)
  {
    n := 0;
    while n < |requests|
      invariant n <= |requests| && forall k | 0 <= k < n :: requests[k].id != id
    {
      if requests[n].id == id {
        return;
      }
      n := n + 1;
    }
  }

  lemma {:induction false} RemoveFirstAt(ids: seq<string>, i: nat)
    requires i < |ids| && ids[i] !in ids[..i]
    ensures RemoveFirst(ids, ids[i]) == ids[..i] + ids[i + 1..]
  {
    if i > 0 {
      assert ids[0] in ids[..i];
      assert forall k | 0 <= k < i - 1 :: ids[1..][k] in ids[..i];
      RemoveFirstAt(ids[1..], i - 1);
    }
  }

  lemma {:induction false} RemoveMissing(ids: seq<string>, name: string)
    requires name !in ids
    ensures RemoveFirst(ids, name) == ids
  {
    if ids != [] {
      RemoveMissing(ids[1..], name);
    }
  }

  method Remove(ids: seq<string>, name: string) returns (rest: seq<string>)
    ensures rest == RemoveFirst(ids, name)
  {
    for i := 0 to |ids|
      invariant name !in ids[..i]
    {
      if ids[i] == name {
        RemoveFirstAt(ids, i);
        return ids[..i] + ids[i + 1..];
      }
    }
    RemoveMissing(ids, name);
    return ids;
  }

  method LearnForeign(start: map<string, string>, here: string, ids: seq<string>) returns (remote: map<string, string>)
    ensures remote == AddForeign(start, here, ids)
  {
    remote := start;
    for i := 0 to |ids|
      invariant remote == AddForeign(start, here, ids[..i])
    {
      assert ids[..i + 1][..i] == ids[..i];
      if HasColon(ids[i]) && KernelOf(ids[i]) != here {
        remote := remote[ConnectorOf(ids[i]) := KernelOf(ids[i])];
      }
    }
    assert ids[..|ids|] == ids;
  }

  method LearnRemote(start: map<string, string>, ids: seq<string>) returns (remote: map<string, string>)
    ensures remote == AddRemote(start, ids)
  {
    remote := start;
    for i := 0 to |ids|
      invariant remote == AddRemote(start, ids[..i])
    {
      assert ids[..i + 1][..i] == ids[..i];
      if HasColon(ids[i]) {
        remote := remote[ConnectorOf(ids[i]) := KernelOf(ids[i])];
      }
    }
    assert ids[..|ids|] == ids;
  }

  class Channel {
    const kernel: string
    const approver: string
    var status: N.Status
    var senders: seq<string>
    var receivers: seq<string>
    var remote: map<string, string>
    var requests: seq<Request>

    constructor (s: State)
      ensures Now() == s
    {
      kernel, approver, status, senders, receivers, remote, requests :=
        s.kernel, s.approver, s.status, s.senders, s.receivers, s.remote, s.requests;
    }

    function Now(): State
      reads this
    {
      State(kernel, approver, status, senders, receivers, remote, requests)
    }

    method IsMember(who: string) returns (yes: bool)
      ensures yes == IsParticipant(Now(), who)
    {
      yes := ScanBare(senders, who);
      if !yes {
        yes := ScanBare(receivers, who);
      }
    }

    method RequestChannelSubscription(who: string, change: Change, id: string) returns (o: Outcome)
      modifies `requests
      ensures (Now(), o) == RequestSubscription(old(Now()), who, change, id)
    {
      if status != N.Active {
        return Refused(NotActive);
      }
      if change != AddSender && change != AddReceiver {
        return Refused(BadRole);
      }
      var member := IsMember(who);
      if member {
        return Refused(AlreadyParticipant);
      }
      for i := 0 to |requests|
        invariant requests == old(requests)
        invariant forall k | 0 <= k < i :: !(requests[k].requester == who && requests[k].decision == Pending)
      {
        if requests[i].requester == who && requests[i].decision == Pending {
          return Refused(AlreadyRequested);
        }
      }
      requests := requests + [Request(id, who, change, who, Pending)];
      return Done;
    }

    method RequestPermissionChange(who: string, change: Change, target: string, id: string) returns (o: Outcome)
      modifies `requests
      ensures (Now(), o) == RequestChange(old(Now()), who, change, target, id)
    {
      if status != N.Active {
        return Refused(NotActive);
      }
      var member := IsMember(who);
      if !member {
        return Refused(NotParticipant);
      }
      if change.Unknown? {
        return Refused(BadChange);
      }
      var sends := D.ScanRole(senders, target);
      var receives := D.ScanRole(receivers, target);
      match change {
        case AddSender =>
          if sends { return Refused(AlreadySender); }
          if receives { return Refused(AlreadyReceiver); }
        case AddReceiver =>
          if receives { return Refused(AlreadyReceiver); }
          if sends { return Refused(AlreadySender); }
        case RemoveSender =>
          if !sends { return Refused(NotSender); }
          if |senders| <= 1 { return Refused(LastSender); }
        case RemoveReceiver =>
          if !receives { return Refused(NotReceiver); }
          if |receivers| <= 1 { return Refused(LastReceiver); }
      }
      requests := requests + [Request(id, who, change, target, Pending)];
      return Done;
    }

    method StorePermissionRequestFromRemote(r: Request)
      modifies `requests
      ensures Now() == StoreRemote(old(Now()), r)
    {
      var n := FindRequest(requests, r.id);
      if n < |requests| {
        return;
      }
      if r.change == AddSender {
        var receives := D.ScanRole(receivers, r.target);
        if receives { return; }
      } else if r.change == AddReceiver {
        var sends := D.ScanRole(senders, r.target);
        if sends { return; }
      }
      requests := requests + [r.(decision := Pending)];
    }

    method AddSubscriber(r: Request) returns (o: Outcome)
      modifies `senders, `receivers
      ensures (Now(), o) == ApplySubscription(old(Now()), r)
    {
      if r.change == AddSender {
        var name := r.target;
        if r.requester != "" && HasColon(r.requester) {
          name := r.requester;
        }
        var sends := Contains(senders, name);
        if sends { return Refused(AlreadySender); }
        var receives := Contains(receivers, name);
        if receives { return Refused(AlreadyReceiver); }
        senders := senders + [name];
      } else if r.change == AddReceiver {
        var name := r.target;
        if r.requester != "" && HasColon(r.requester) {
          name := Qualify(KernelOf(r.requester), r.target);
        }
        var receives := Contains(receivers, name);
        if receives { return Refused(AlreadyReceiver); }
        var sends := Contains(senders, name);
        if sends { return Refused(AlreadySender); }
        receivers := receivers + [name];
      } else {
        return Refused(BadChange);
      }
      return Done;
    }

    method ApproveChannelSubscription(who: string, id: string) returns (o: Outcome)
      modifies `senders, `receivers, `requests
      ensures (Now(), o) == ApproveSubscription(old(Now()), who, id)
    {
      var member := IsMember(who);
      if !member {
        return Refused(NotParticipant);
      }
      var n := FindRequest(requests, id);
      if n == |requests| {
        return Refused(NotFound);
      }
      if requests[n].decision != Pending {
        return Refused(NotPending);
      }
      hide ApplySubscription, IsParticipant;
      o := AddSubscriber(requests[n]);
      if o == Done {
        requests := requests[n := requests[n].(decision := Approved(who))];
      }
    }

    method RejectChannelSubscription(who: string, id: string) returns (o: Outcome)
      modifies `requests
      ensures (Now(), o) == RejectSubscription(old(Now()), who, id)
    {
      var member := IsMember(who);
      if !member {
        return Refused(NotParticipant);
      }
      var n := FindRequest(requests, id);
      if n == |requests| {
        return Refused(NotFound);
      }
      if requests[n].decision != Pending {
        return Refused(NotPending);
      }
      requests := requests[n := requests[n].(decision := Rejected(who))];
      return Done;
    }

    method Permit(r: Request) returns (o: Outcome)
      modifies `senders, `receivers, `remote
      ensures (Now(), o) == ApplyPermission(old(Now()), r)
    {
      var name := r.target;
      if !HasColon(name) {
        if r.requester != "" && HasColon(r.requester) {
          name := Qualify(KernelOf(r.requester), r.target);
        } else {
          name := Qualify(kernel, r.target);
        }
      }
      match r.change {
        case AddSender =>
          var receives := Contains(receivers, name);
          if receives { return Refused(AlreadyReceiver); }
          senders := senders + [name];
          remote := LearnForeign(remote, kernel, receivers);
        case AddReceiver =>
          var sends := Contains(senders, name);
          if sends { return Refused(AlreadySender); }
          receivers := receivers + [name];
          remote := LearnForeign(remote, kernel, senders);
        case RemoveSender =>
          var gone := r.target;
          if !HasColon(gone) && r.requester != "" && HasColon(r.requester) {
            gone := Qualify(KernelOf(r.requester), r.target);
          }
          senders := Remove(senders, gone);
        case RemoveReceiver =>
          receivers := Remove(receivers, r.target);
        case Unknown(_) =>
      }
      return Done;
    }

    method ApprovePermissionChange(who: string, id: string) returns (o: Outcome)
      modifies `senders, `receivers, `remote, `requests
      ensures (Now(), o) == ApprovePermission(old(Now()), who, id)
    {
      if status != N.Active {
        return Refused(NotActive);
      }
      if who != approver {
        return Refused(NotApprover);
      }
      var n := FindRequest(requests, id);
      if n == |requests| {
        return Refused(NotFound);
      }
      if requests[n].decision != Pending {
        return Refused(NotPending);
      }
      hide ApplyPermission;
      o := Permit(requests[n]);
      if o == Done {
        requests := requests[n := requests[n].(decision := Approved(who))];
      }
    }

    method RejectPermissionChange(who: string, id: string) returns (o: Outcome)
      modifies `requests
      ensures (Now(), o) == RejectPermission(old(Now()), who, id)
    {
      if status != N.Active {
        return Refused(NotActive);
      }
      if who != approver {
        return Refused(NotApprover);
      }
      var n := FindRequest(requests, id);
      if n == |requests| {
        return Refused(NotFound);
      }
      if requests[n].decision != Pending {
        return Refused(NotPending);
      }
      requests := requests[n := requests[n].(decision := Rejected(""))];
      return Done;
    }

    method HandleChannelUpdate(from: seq<string>, to: seq<string>, newStatus: Option<N.Status>)
      modifies `senders, `receivers, `remote, `status
      ensures Now() == Update(old(Now()), from, to, newStatus)
    {
      senders := from;
      receivers := to;
      if newStatus.Some? {
        status := newStatus.value;
      }
      remote := LearnRemote(remote, senders);
      remote := LearnRemote(remote, receivers);
    }
  }
}
