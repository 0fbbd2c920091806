/** The way back of an acknowledgement. SendAck addresses an ACK to the kernel and connector the data
    came from; every kernel on the way asks PushData where to send it next. The two route look-ups
    may give any answer that `Routes` allows. */
module AckPath {
  import opened Names
  import opened Routes
  import opened Delivery
  import N = Negotiation

  /** What GetNextHopKernel may answer for target `k`; "" stands for not found. */
  ghost predicate Answers(configs: map<string, Route>, cur: string, k: string, name: string) {
    exists res :: NextAllowed(configs, cur, k, res) && name == (if res.Next? then res.kernel else "")
  }

  function NameOf(next: map<string, string>, k: string): string {
    if k in next then next[k] else ""
  }

  ghost predicate Answered(configs: map<string, Route>, cur: string, next: map<string, string>) {
    forall k :: Answers(configs, cur, k, NameOf(next, k))
  }

  /** What GetPreviousHopKernel may answer. */
  ghost predicate Precedes(configs: map<string, Route>, cur: string, prev: string) {
    exists res :: PrevAllowed(configs, cur, res) && prev == (if res.Prev? then res.kernel else "")
  }

  /** With some allowed answers, kernel `v` sends exactly `sent` on for packet `a`. */
  ghost predicate Sends(configs: map<string, Route>, v: View, a: Packet, sent: map<string, Forward>) {
    exists prev, next ::
      && Precedes(configs, v.kernel, prev) && Answered(configs, v.kernel, next)
      && Push(v, a, false, prev, next, true).forwards == sent
  }

  /** The single enabled route is contiguous, its kernels are distinct and properly named. */
  ghost predicate SoundRoute(configs: map<string, Route>, r: Route) {
    && OnlyEnabled(configs, r) && Contiguous(r) && DistinctKernels(r) && r.hops != []
    && forall i | 0 <= i < |Path(r)| :: Path(r)[i] != "" && !HasColon(Path(r)[i])
  }

  /** An active copy of the channel at kernel `k`; connectors are online under bare names. */
  predicate Ready(v: View, k: string) {
    v.kernel == k && v.status == N.Active && forall n | n in v.online :: !HasColon(n)
  }

  /** An ACK on its way to connector `c` of kernel `origin`. A sender listed with its kernel gives a
      doubly qualified target, of which the fallback drops one level. */
  predicate AckTo(a: Packet, origin: string, c: string) {
    a.isAck && a.kind == Ack && (a.targets == [Qualify(origin, c)] || (HasColon(c) && a.targets == [c]))
  }

  predicate SenderOf(origin: string, c: string) {
    !HasColon(Bare(c)) && (HasColon(c) ==> c == Qualify(origin, Bare(c)))
  }

  lemma TargetKernel(a: Packet, origin: string, c: string)
    requires !HasColon(origin) && AckTo(a, origin, c) && SenderOf(origin, c)
    ensures |a.targets| == 1 && HasColon(a.targets[0]) && KernelOf(a.targets[0]) == origin
    ensures a.targets == [Qualify(origin, ConnectorOf(a.targets[0]))]
  {
    QualifySplits(origin, c);
    QualifySplits(origin, Bare(c));
  }

  lemma AckNotHeld(v: View, a: Packet, k: string)
    requires Ready(v, k) && |a.targets| == 1 && HasColon(a.targets[0])
    ensures !MustHold(v, a)
  {
    hide Lists, HasColon;
    forall i | 0 <= i < |a.targets|
      ensures !AimedIdle(v, a.isAck, a.targets[i])
    {
      assert a.targets[i] !in v.online;
    }
  }

  lemma OneAimed(id: string)
    requires HasColon(id)
    ensures AimedRemote([id]) == map[KernelOf(id) := [ConnectorOf(id)]]
    ensures forall v :: AimedAbsent(v, true, [id]) == []
  {
    assert [id][..0] == [];
    assert forall v :: AimedAbsent(v, true, []) == [] && !AimedHere(v, true, id);
    assert AimedRemote([]) == map[];
    assert [] + [ConnectorOf(id)] == [ConnectorOf(id)];
  }

  lemma NoNextBack(configs: map<string, Route>, r: Route, a: nat, b: nat, next: map<string, string>)
    requires SoundRoute(configs, r) && b <= a < |Path(r)|
    requires Answered(configs, Path(r)[a], next)
    ensures Via(next, Path(r)[b]) == Path(r)[b]
  {
    var k := Path(r)[b];
    assert Answers(configs, Path(r)[a], k, NameOf(next, k));
    var res :| NextAllowed(configs, Path(r)[a], k, res) && NameOf(next, k) == (if res.Next? then res.kernel else "");
    NoStepBack(configs, r, a, b, res);
  }

  lemma PushTurnsBack(v: View, a: Packet, prev: string, next: map<string, string>)
    requires v.status == N.Active && a.isAck && a.kind == Ack && |a.targets| == 1 && !MustHold(v, a)
    requires TurnsBack(v, prev, a.targets[0]) && Via(next, prev) == prev
    ensures Push(v, a, false, prev, next, true)
         == Outcome(Pushed, true, [], false, false, map[prev := Forward(prev, a)])
  {
    hide MustHold, HasColon;
    assert a.targets == [a.targets[0]];
    assert Retraces(v, prev, a) && FirstTurn(v, prev, a.targets) == 0;
    var g := map[prev := [a.targets[0]]];
    assert RemoteTargets(v, prev, a) == g;
    assert Forwards(v, next, g, a) == map[prev := Forward(prev, Outgoing(a, prev, g[prev]))];
    assert Outgoing(a, prev, g[prev]).targets == a.targets;
  }

  lemma PushAims(v: View, a: Packet, prev: string, next: map<string, string>)
    requires v.status == N.Active && a.isAck && a.kind == Ack && |a.targets| == 1 && !MustHold(v, a)
    requires HasColon(a.targets[0]) && !TurnsBack(v, prev, a.targets[0])
    ensures var o, t := KernelOf(a.targets[0]), ConnectorOf(a.targets[0]);
      Push(v, a, false, prev, next, true) == Outcome(Pushed, true, [], v.subscribers != {}, false,
        if o == v.kernel then map[]
        else map[o := Forward(Via(next, o), a.(targets := [if HasColon(t) then t else Qualify(o, t)]))])
  {
    var o, t := KernelOf(a.targets[0]), ConnectorOf(a.targets[0]);
    OneAimed(a.targets[0]);
    assert a.targets == [a.targets[0]];
    hide MustHold, HasColon, AimedRemote, AimedAbsent, TurnsBack;
    assert FirstTurn(v, prev, a.targets) == 1;
    var g := map[o := [t]];
    assert RemoteTargets(v, prev, a) == g && AbsentTargets(v, prev, a) == [];
    assert !Aimless(v, a) by { assert o in g; }
    hide Aimless, Retraces, RemoteTargets, AbsentTargets;
    assert [t][1..] == [];
    assert Outgoing(a, o, g[o]) == a.(targets := [if HasColon(t) then t else Qualify(o, t)]);
    assert Forwards(v, next, g, a)
        == if o == v.kernel then map[] else map[o := Forward(Via(next, o), Outgoing(a, o, g[o]))];
  }

  /** Two or more hops from the origin the ACK goes to the previous hop with its target unchanged. */
  lemma AckFollowsPrevious(configs: map<string, Route>, r: Route, j: nat, v: View, a: Packet, c: string,
                           prev: string, next: map<string, string>)
    requires SoundRoute(configs, r) && 2 <= j < |Path(r)| && Ready(v, Path(r)[j])
    requires AckTo(a, Path(r)[0], c) && SenderOf(Path(r)[0], c)
    requires Precedes(configs, v.kernel, prev) && Answered(configs, v.kernel, next)
    ensures Push(v, a, false, prev, next, true)
         == Outcome(Pushed, true, [], false, false, map[Path(r)[j - 1] := Forward(Path(r)[j - 1], a)])
  {
    hide MustHold, Push, Precedes, Answered, Path, SenderOf;
    var p := Path(r);
    RouteFacts(configs, r, j);
    hide SoundRoute;
    TargetKernel(a, p[0], c);
    AckNotHeld(v, a, p[j]);
    PreviousOnPath(configs, r, j, prev);
    NoNextBack(configs, r, j, j - 1, next);
    hide HasColon;
    PushTurnsBack(v, a, prev, next);
  }

  lemma RouteFacts(configs: map<string, Route>, r: Route, j: nat)
    requires SoundRoute(configs, r) && 2 <= j < |Path(r)|
    ensures var p := Path(r);
      !HasColon(p[0]) && p[0] != "" && p[j - 1] != "" && p[0] != p[j] && p[j - 1] != p[j]
  {
    hide Path, OnlyEnabled, Contiguous, HasColon;
  }

  lemma PreviousOnPath(configs: map<string, Route>, r: Route, j: nat, prev: string)
    requires SoundRoute(configs, r) && 2 <= j < |Path(r)| && Precedes(configs, Path(r)[j], prev)
    ensures prev == Path(r)[j - 1]
  {
    hide Path, HasColon, PrevAllowed;
    var res :| PrevAllowed(configs, Path(r)[j], res) && prev == (if res.Prev? then res.kernel else "");
    PrevFollowsPath(configs, r, j, res);
  }

  /** At the first hop's destination there is no previous hop; the ordinary directed forwarding takes
      the ACK to the origin. At the origin nothing is sent on. */
  lemma AckFallsBack(configs: map<string, Route>, r: Route, j: nat, v: View, a: Packet, c: string,
                     prev: string, next: map<string, string>)
    requires SoundRoute(configs, r) && j <= 1 && Ready(v, Path(r)[j])
    requires AckTo(a, Path(r)[0], c) && SenderOf(Path(r)[0], c)
    requires Precedes(configs, v.kernel, prev) && Answered(configs, v.kernel, next)
    ensures var t := ConnectorOf(a.targets[0]);
      Push(v, a, false, prev, next, true) == Outcome(Pushed, true, [], v.subscribers != {}, false,
        if j == 0 then map[]
        else map[Path(r)[0] := Forward(Path(r)[0], if HasColon(t) then a.(targets := [t]) else a)])
  {
    var p := Path(r);
    TargetKernel(a, p[0], c);
    AckNotHeld(v, a, p[j]);
    assert j == 1 ==> p[0] != p[1];
    NoNextBack(configs, r, j, 0, next);
    if j == 1 {
      var res :| PrevAllowed(configs, v.kernel, res) && prev == (if res.Prev? then res.kernel else "");
      PrevFollowsPath(configs, r, j, res);
    }
    assert !TurnsBack(v, prev, a.targets[0]);
    hide MustHold, Push;
    PushAims(v, a, prev, next);
  }

  // ------------------------------------------------------------------------------------------
  // The whole way
  // ------------------------------------------------------------------------------------------

  datatype Leg = Leg(kernel: string, packet: Packet)

  /** The receiving kernel's ForwardData signs the packet anew but keeps its targets and its marks. */
  predicate SameRoute(a: Packet, b: Packet) {
    b.targets == a.targets && b.isAck == a.isAck && b.kind == a.kind
  }

  ghost predicate Passes(configs: map<string, Route>, v: View, from: Leg, to: Leg) {
    exists sent: map<string, Forward>, k ::
      && Sends(configs, v, from.packet, sent) && k in sent && sent[k].via == to.kernel
      && SameRoute(sent[k].packet, to.packet)
  }

  ghost predicate IsAckWalk(configs: map<string, Route>, views: map<string, View>, legs: seq<Leg>) {
    && legs != []
    && (forall i | 0 <= i < |legs| :: legs[i].kernel in views)
    && (forall i | 0 <= i < |legs| - 1 :: Passes(configs, views[legs[i].kernel], legs[i], legs[i + 1]))
  }

  ghost predicate AllReady(views: map<string, View>, r: Route) {
    forall i | 0 <= i < |Path(r)| :: Path(r)[i] in views && Ready(views[Path(r)[i]], Path(r)[i])
  }

  /** Position j sends the ACK to position j - 1 and nowhere else; position 0 sends nothing. */
  ghost predicate SendsBack(r: Route, j: nat, c: string, sent: map<string, Forward>)
    requires j < |Path(r)|
  {
    if j == 0 then sent == map[]
    else
      && sent.Keys == {Path(r)[j - 1]}
      && sent[Path(r)[j - 1]].via == Path(r)[j - 1] && AckTo(sent[Path(r)[j - 1]].packet, Path(r)[0], c)
      && (j == 1 ==> sent[Path(r)[0]].packet.targets == [Qualify(Path(r)[0], Bare(c))])
  }

  /** Whatever the look-ups answer. */
  ghost predicate OnlySendsBack(configs: map<string, Route>, v: View, a: Packet, r: Route, j: nat, c: string)
    requires j < |Path(r)|
  {
    forall sent | Sends(configs, v, a, sent) :: SendsBack(r, j, c, sent)
  }

  lemma FallbackTarget(a: Packet, origin: string, c: string)
    requires !HasColon(origin) && AckTo(a, origin, c) && SenderOf(origin, c)
    ensures var t := ConnectorOf(a.targets[0]);
      var b := if HasColon(t) then a.(targets := [t]) else a;
      AckTo(b, origin, c) && b.targets == [Qualify(origin, Bare(c))]
  {
    QualifySplits(origin, c);
    QualifySplits(origin, Bare(c));
  }

  lemma AckStep(configs: map<string, Route>, r: Route, j: nat, v: View, a: Packet, c: string,
                prev: string, next: map<string, string>)
    requires SoundRoute(configs, r) && j < |Path(r)| && Ready(v, Path(r)[j])
    requires AckTo(a, Path(r)[0], c) && SenderOf(Path(r)[0], c)
    requires Precedes(configs, v.kernel, prev) && Answered(configs, v.kernel, next)
    ensures SendsBack(r, j, c, Push(v, a, false, prev, next, true).forwards)
  {
    hide Push, Precedes, Answered, Path, Qualify, HasColon, AckTo, SenderOf, OnlyEnabled, Contiguous, DistinctKernels;
    if j >= 2 {
      AckFollowsPrevious(configs, r, j, v, a, c, prev, next);
    } else {
      AckFallsBack(configs, r, j, v, a, c, prev, next);
      FallbackTarget(a, Path(r)[0], c);
    }
  }

  lemma AckSteps(configs: map<string, Route>, r: Route, j: nat, v: View, a: Packet, c: string)
    requires SoundRoute(configs, r) && j < |Path(r)| && Ready(v, Path(r)[j])
    requires AckTo(a, Path(r)[0], c) && SenderOf(Path(r)[0], c)
    ensures OnlySendsBack(configs, v, a, r, j, c)
  {
    hide Push, Precedes, Answered, Path, SoundRoute, Ready, AckTo, SenderOf, SendsBack;
    forall sent | Sends(configs, v, a, sent)
      ensures SendsBack(r, j, c, sent)
    {
      var prev, next :| Precedes(configs, v.kernel, prev) && Answered(configs, v.kernel, next)
        && Push(v, a, false, prev, next, true).forwards == sent;
      AckStep(configs, r, j, v, a, c, prev, next);
    }
  }

  ghost predicate Retraced(r: Route, legs: seq<Leg>, j: nat, c: string)
    requires |legs| <= j + 1 <= |Path(r)|
  {
    forall i | 0 <= i < |legs| :: legs[i].kernel == Path(r)[j - i] && AckTo(legs[i].packet, Path(r)[0], c)
  }

  lemma WalkFront(configs: map<string, Route>, views: map<string, View>, legs: seq<Leg>)
    requires IsAckWalk(configs, views, legs) && |legs| > 1
    ensures var n := |legs| - 1;
      IsAckWalk(configs, views, legs[..n]) && Passes(configs, views[legs[n - 1].kernel], legs[n - 1], legs[n])
  {
    hide Passes;
  }

  /** An ACK issued at position j of the route retraces it: every walk visits the reversed path, one
      kernel after the other, each kernel sends it to exactly one other, and it stops at the origin,
      that is after j forwards. */
  lemma {:induction false} AckRetracesRoute(configs: map<string, Route>, r: Route, views: map<string, View>,
                                            legs: seq<Leg>, j: nat, c: string)
    requires SoundRoute(configs, r) && AllReady(views, r) && j < |Path(r)| && SenderOf(Path(r)[0], c)
    requires IsAckWalk(configs, views, legs) && legs[0].kernel == Path(r)[j] && AckTo(legs[0].packet, Path(r)[0], c)
    ensures |legs| <= j + 1 && Retraced(r, legs, j, c)
    ensures |legs| == j + 1 && j > 0 ==> legs[j].packet.targets == [Qualify(Path(r)[0], Bare(c))]
    ensures OnlySendsBack(configs, views[legs[|legs| - 1].kernel], legs[|legs| - 1].packet, r, j + 1 - |legs|, c)
    decreases |legs|
  {
    hide OnlySendsBack, SoundRoute, Ready, AckTo, SenderOf, Path, Passes;
    var n := |legs| - 1;
    if n > 0 {
      var front := legs[..n];
      WalkFront(configs, views, legs);
      AckRetracesRoute(configs, r, views, front, j, c);
      LastLeg(configs, r, views, legs[n - 1], legs[n], j + 1 - n, c);
    }
    AckSteps(configs, r, j - n, views[legs[n].kernel], legs[n].packet, c);
  }

  lemma LastLeg(configs: map<string, Route>, r: Route, views: map<string, View>, from: Leg, to: Leg, i: nat, c: string)
    requires i < |Path(r)| && from.kernel in views
    requires Passes(configs, views[from.kernel], from, to)
    requires OnlySendsBack(configs, views[from.kernel], from.packet, r, i, c)
    ensures i > 0 && to.kernel == Path(r)[i - 1] && AckTo(to.packet, Path(r)[0], c)
    ensures i == 1 ==> to.packet.targets == [Qualify(Path(r)[0], Bare(c))]
  {
    hide Sends;
    var sent: map<string, Forward>, k :| Sends(configs, views[from.kernel], from.packet, sent) && k in sent
      && sent[k].via == to.kernel && SameRoute(sent[k].packet, to.packet);
  }

  /** An ACK that came back by the fallback aims at the original sender. One issued at the origin itself
      does exactly when the channel lists the sender by its bare name. */
  lemma AimsAtSender(origin: string, c: string)
    requires !HasColon(origin) && SenderOf(origin, c)
    ensures Aims(Qualify(origin, Bare(c)), Bare(c))
    ensures Aims(Qualify(origin, c), Bare(c)) <==> !HasColon(c)
  {
    QualifySplits(origin, c);
    QualifySplits(origin, Bare(c));
  }

  /** An ACK addressed to this kernel, or to no kernel because the channel lists no sender with one, is not
      kept, whatever the look-ups answer. In the first case nothing is sent on, in the second a forward to
      the kernel "" is tried as well, with the target unchanged if it names a bare connector. When the ACK
      is distributed to the subscribers of that time, `n` is sent it if and only if some connector was
      subscribed when it came, so that it was queued, `n` is subscribed when it is distributed, did not
      issue it itself, and is the one the target aims at. */
  lemma AckDeliveredExactly(v: View, a: Packet, n: string, prev: string, next: map<string, string>,
                            subs: map<string, seq<Packet>>)
    requires Ready(v, v.kernel) && a.isAck && a.kind == Ack && !HasColon(n)
    requires |a.targets| == 1 && HasColon(a.targets[0]) && KernelOf(a.targets[0]) in {v.kernel, ""}
    ensures var o, t := Push(v, a, false, prev, next, true), ConnectorOf(a.targets[0]);
      && o.result == Pushed && o.absent == [] && !o.held
      && o.forwards == (if KernelOf(a.targets[0]) == v.kernel then map[]
                        else map["" := Forward(Via(next, ""), if HasColon(t) then a.(targets := [t]) else a)])
      && var after := if o.queued then Distributed(v.senders, v.receivers, subs, a) else subs;
         (n in subs && after[n] == subs[n] + [a]) <==>
           v.subscribers != {} && n in subs && n != a.sender && Aims(a.targets[0], n)
  {
    hide Push, Receives;
    AckNotHeld(v, a, v.kernel);
    PushAims(v, a, prev, next);
    SplitQualifies(a.targets[0]);
    assert a.targets == [a.targets[0]];
    AckReceived(v, a, n);
    if n in subs {
      assert |subs[n] + [a]| != |subs[n]|;
    }
  }

  lemma AckReceived(v: View, a: Packet, n: string)
    requires a.isAck && |a.targets| == 1 && !HasColon(n)
    ensures Receives(v.senders, v.receivers, a, n) <==> n != a.sender && Aims(a.targets[0], n)
  {
    assert HasColon(Qualify(a.senderKernel, a.sender));
  }

  /** The look-ups always have an answer, so an ACK is never stuck for want of one. */
  lemma LookupsAnswer(configs: map<string, Route>, r: Route, j: nat, v: View, a: Packet)
    returns (sent: map<string, Forward>)
    requires SoundRoute(configs, r) && j < |Path(r)| && v.kernel == Path(r)[j]
    ensures Sends(configs, v, a, sent)
  {
    hide Push, HasColon;
    var next := NextAnswers(configs, r, j);
    var prev := PrevAnswer(configs, r, j);
    sent := Push(v, a, false, prev, next, true).forwards;
  }

  lemma PrevAnswer(configs: map<string, Route>, r: Route, j: nat) returns (prev: string)
    requires SoundRoute(configs, r) && j < |Path(r)|
    ensures Precedes(configs, Path(r)[j], prev)
  {
    var p := Path(r);
    var n :| n in configs && configs[n] == r;
    assert forall i | 0 <= i < |r.hops| :: r.hops[i].to == p[i + 1];
    if j <= 1 {
      prev := "";
      assert j == 1 ==> FirstArrival(r, p[j], 0);
      assert j == 0 ==> !Arrives(r, p[j]);
      assert PrevAllowed(configs, p[j], NoPrev);
    } else {
      prev := p[j - 1];
      assert FirstArrival(r, p[j], j - 1);
      assert PrevAllowed(configs, p[j], Prev(prev, r.hops[j - 2].address, r.hops[j - 2].port));
    }
  }

  lemma NextAnswers(configs: map<string, Route>, r: Route, j: nat) returns (next: map<string, string>)
    requires SoundRoute(configs, r) && j < |Path(r)|
    ensures Answered(configs, Path(r)[j], next)
  {
    var p := Path(r);
    var step := if j + 1 < |p| then p[j + 1] else "";
    var later := set i | j < i < |p| :: p[i];
    next := map k | k in later :: step;
    forall k
      ensures Answers(configs, p[j], k, NameOf(next, k))
    {
      if k in later {
        var b :| j < b < |p| && p[b] == k;
        NextFollowsPath(configs, r, j, b, p[j + 1]);
      } else {
        NoWayTo(configs, r, j, k);
      }
    }
  }

  lemma NoWayTo(configs: map<string, Route>, r: Route, j: nat, k: string)
    requires SoundRoute(configs, r) && j < |Path(r)| && forall i | j < i < |Path(r)| :: Path(r)[i] != k
    ensures Answers(configs, Path(r)[j], k, "")
  {
    NoWay(r, j, k);
    hide Useful, Path;
    assert NextAllowed(configs, Path(r)[j], k, NoNext);
  }

  // ------------------------------------------------------------------------------------------
  // Whom SendAck addresses
  // ------------------------------------------------------------------------------------------

  /** The first listed sender that is not the acknowledging connector, "" if there is none. */
  method FindAddressee(senders: seq<string>, acker: string) returns (c: string)
    ensures c == Addressee(senders, acker)
    ensures (forall i | 0 <= i < |senders| :: senders[i] == acker) ==> c == ""
    ensures forall i | 0 <= i < |senders| && senders[i] != acker && (forall k | 0 <= k < i :: senders[k] == acker) ::
      c == senders[i]
  {
    c := "";
    for i := 0 to |senders|
      invariant c == "" && forall k | 0 <= k < i :: senders[k] == acker
    {
      if senders[i] != acker {
        AddresseeAt(senders, acker, i);
        return senders[i];
      }
    }
    NoAddressee(senders, acker);
  }

  function Addressee(senders: seq<string>, acker: string): string {
    if senders == [] then "" else if senders[0] != acker then senders[0] else Addressee(senders[1..], acker)
  }

  lemma {:induction false} AddresseeAt(senders: seq<string>, acker: string, i: nat)
    requires i < |senders| && senders[i] != acker && forall k | 0 <= k < i :: senders[k] == acker
    ensures Addressee(senders, acker) == senders[i]
  {
    if i > 0 {
      AddresseeAt(senders[1..], acker, i - 1);
    }
  }

  lemma {:induction false} NoAddressee(senders: seq<string>, acker: string)
    requires forall k | 0 <= k < |senders| :: senders[k] == acker
    ensures Addressee(senders, acker) == ""
  {
    if senders != [] {
      NoAddressee(senders[1..], acker);
    }
  }

  /** The ACK goes back to whoever sent the data, whichever sender that was, exactly when the channel has
      no second sender: with two, the packets of the later one are acknowledged to the earlier one. */
  lemma AddresseeIsSenderExactly(senders: seq<string>, acker: string)
    ensures (forall s | s in senders && s != acker :: Addressee(senders, acker) == s) <==>
      (forall s, t | s in senders && t in senders && s != acker && t != acker :: s == t)
  {
    if s :| s in senders && s != acker {
      AddresseeListed(senders, acker, s);
    }
  }

  lemma {:induction false} AddresseeListed(senders: seq<string>, acker: string, s: string)
    requires s in senders && s != acker
    ensures Addressee(senders, acker) in senders && Addressee(senders, acker) != acker
  {
    if senders[0] == acker {
      assert senders == [senders[0]] + senders[1..];
      AddresseeListed(senders[1..], acker, s);
    }
  }

  // ------------------------------------------------------------------------------------------
  // The kernel SendAck addresses
  // ------------------------------------------------------------------------------------------

  /** The kernel of the first sender listed with one, "" if there is none. */
  function Origin(senders: seq<string>): string {
    if senders == [] then "" else if HasColon(senders[0]) then KernelOf(senders[0]) else Origin(senders[1..])
  }

  method GetOriginKernelID(senders: seq<string>) returns (k: string)
    ensures k == Origin(senders)
    ensures (forall i | 0 <= i < |senders| :: !HasColon(senders[i])) ==> k == ""
    ensures forall i | 0 <= i < |senders| && HasColon(senders[i]) && (forall j | 0 <= j < i :: !HasColon(senders[j])) ::
      k == KernelOf(senders[i])
  {
    for i := 0 to |senders|
      invariant Origin(senders) == Origin(senders[i..])
      invariant forall j | 0 <= j < i :: !HasColon(senders[j])
    {
      if HasColon(senders[i]) {
        return KernelOf(senders[i]);
      }
      assert senders[i..][1..] == senders[i + 1..];
    }
    return "";
  }

  lemma {:induction false} OriginAfterSame(senders: seq<string>, acker: string)
    requires senders != [] && senders[0] == acker && !HasColon(acker)
    ensures Origin(senders) == Origin(senders[1..]) && Addressee(senders, acker) == Addressee(senders[1..], acker)
  {
  }

  /** SendAck addresses no kernel exactly when the channel lists no sender with a kernel before its name. */
  lemma {:induction false} NoOriginExactly(senders: seq<string>)
    requires forall s | s in senders && HasColon(s) :: KernelOf(s) != ""
    ensures Origin(senders) == "" <==> forall s | s in senders :: !HasColon(s)
  {
    if senders != [] {
      assert senders == [senders[0]] + senders[1..];
      if !HasColon(senders[0]) {
        NoOriginExactly(senders[1..]);
      }
    }
  }

  /** SendAck takes the kernel from the first qualified sender and the connector from the first sender
      that is not the acknowledging one. The two belong together exactly when that connector is listed with
      its kernel and no qualified entry of the acknowledging connector on another kernel comes first. */
  lemma {:induction false} TargetIsOneSenderExactly(senders: seq<string>, acker: string)
    requires exists s :: s in senders && s != acker
    ensures var c := Addressee(senders, acker);
      (HasColon(c) && KernelOf(c) == Origin(senders)) <==>
        HasColon(c) && (senders[0] != acker || !HasColon(acker) || KernelOf(acker) == KernelOf(c))
  {
    if senders[0] == acker && !HasColon(acker) {
      OriginAfterSame(senders, acker);
      assert senders == [senders[0]] + senders[1..];
      assert senders[1..] != [];
      TargetIsOneSenderExactly(senders[1..], acker);
    }
  }
}
