/** PushData clause by clause: which packets are refused, who is buffered for, what is held and what is
    sent where, for broadcast, directed and control packets; and what the kept copies keep. */
module DeliveryExact {
  import opened Names
  import opened Delivery
  import N = Negotiation

  // ------------------------------------------------------------------------------------------
  // Copies
  // ------------------------------------------------------------------------------------------

  /** All fields but the message type and the two ACK marks. */
  predicate SameContent(q: Packet, p: Packet) {
    && q.channel == p.channel && q.number == p.number && q.payload == p.payload && q.signature == p.signature
    && q.timestamp == p.timestamp && q.sender == p.sender && q.senderKernel == p.senderKernel
    && q.targets == p.targets && q.flow == p.flow && q.isFinal == p.isFinal && q.dataHash == p.dataHash
  }

  /** Kept copies keep the content, and packets whose copies are equal have the same content. */
  lemma CopiesKeepContent(p: Packet, q: Packet)
    ensures SameContent(OfflineCopy(p), p) && OfflineCopy(p).kind == Data && !OfflineCopy(p).isAck
    ensures SameContent(HeldCopy(p), p) && HeldCopy(p).kind == Data && !HeldCopy(p).isAck
    ensures HeldCopy(p).ackRecorded == p.ackRecorded
    ensures OfflineCopy(q) == OfflineCopy(p) <==> SameContent(q, p)
  {
  }

  /** Where a listed receiver is: a qualified one on the kernel it names, a bare one where the channel has
      recorded it, or else here. */
  lemma WhereReceiversAre(v: View, k: string, c: string)
    requires !HasColon(k)
    ensures Locate(v, Qualify(k, c)) == if k == v.kernel then Local(c) else Remote(k, c)
    ensures !HasColon(c) ==>
      Locate(v, c) == if c !in v.remote || v.remote[c] == v.kernel then Local(c) else Remote(v.remote[c], c)
  {
    QualifySplits(k, c);
  }

  // ------------------------------------------------------------------------------------------
  // Refusals, queueing and holding
  // ------------------------------------------------------------------------------------------

  /** The packet has somebody to go to: everybody, another kernel, or a listed receiver. */
  ghost predicate Reaches(v: View, p: Packet) {
    p.targets == [] || exists i :: 0 <= i < |p.targets| && (HasColon(p.targets[i]) || Lists(v.receivers, p.targets[i]))
  }

  lemma {:induction false} NoRemoteTargets(ids: seq<string>)
    ensures AimedRemote(ids) == map[] <==> forall i | 0 <= i < |ids| :: !HasColon(ids[i])
  {
    hide HasColon;
    if ids != [] {
      var n := |ids| - 1;
      NoRemoteTargets(ids[..n]);
      assert forall i | 0 <= i < n :: ids[..n][i] == ids[i];
      if HasColon(ids[n]) {
        assert KernelOf(ids[n]) in AimedRemote(ids);
      }
    }
  }

  lemma {:induction false} NoLocalTargets(v: View, isAck: bool, ids: seq<string>)
    ensures AimedLocal(v, isAck, ids) == [] <==> forall i | 0 <= i < |ids| :: !AimedHere(v, isAck, ids[i])
  {
    hide AimedHere;
    if ids != [] {
      var n := |ids| - 1;
      NoLocalTargets(v, isAck, ids[..n]);
      assert forall i | 0 <= i < n :: ids[..n][i] == ids[i];
    }
  }

  lemma AimlessExactly(v: View, p: Packet)
    requires !p.isAck && p.targets != []
    ensures Aimless(v, p) <==> !Reaches(v, p)
  {
    hide HasColon, Lists;
    NoRemoteTargets(p.targets);
    NoLocalTargets(v, p.isAck, p.targets);
    hide AimedRemote, AimedLocal;
    if Reaches(v, p) {
      var i :| 0 <= i < |p.targets| && (HasColon(p.targets[i]) || Lists(v.receivers, p.targets[i]));
      assert HasColon(p.targets[i]) || AimedHere(v, p.isAck, p.targets[i]);
    }
  }

  /** The packet is let in: the channel is active, and the sender is listed unless it is evidence. */
  ghost predicate LetIn(v: View, p: Packet) {
    v.status == N.Active && (p.kind == Evidence || Lists(v.senders, p.sender))
  }

  /** The verdict on every packet but an ACK, and what becomes of it here, for every state and both answers
      of the queue. */
  lemma PushVerdictExactly(v: View, p: Packet, prev: string, next: map<string, string>, room: bool)
    requires !p.isAck
    ensures var o := Push(v, p, false, prev, next, room);
      var goes, full := LetIn(v, p) && Reaches(v, p), v.subscribers != {} && !room;
      && (o.result == Refused(NotActive) <==> v.status != N.Active)
      && (o.result == Refused(NotAuthorized) <==> v.status == N.Active && !LetIn(v, p))
      && (o.sawFlow <==> LetIn(v, p))
      && (o.result == Refused(QueueFull) <==> goes && full)
      && (o.queued <==> goes && v.subscribers != {} && room)
      && (o.held <==> goes && !full && MustHold(v, p) && v.held < 10000)
      && (o.result == Refused(BufferFull) <==> goes && !full && MustHold(v, p) && v.held >= 10000)
  {
    hide Lists, MustHold, Forwards, RemoteTargets, AbsentTargets, Retraces, Reaches, Aimless;
    NoRetrace(v, prev, p);
    if p.targets != [] {
      AimlessExactly(v, p);
    } else {
      EverybodyIsReached(v, p);
    }
  }

  lemma EverybodyIsReached(v: View, p: Packet)
    requires p.targets == []
    ensures Reaches(v, p)
  {
  }

  /** Held is what some receiver of it misses who is online here without a subscription. */
  lemma MustHoldExactly(v: View, p: Packet)
    requires !p.isAck
    ensures p.targets != [] ==>
      (MustHold(v, p) <==> exists i :: 0 <= i < |p.targets| && MissesAimed(v, p.targets[i]))
    ensures p.targets == [] ==>
      (MustHold(v, p) <==> exists i :: 0 <= i < |v.receivers| && Misses(v, v.receivers[i]))
  {
    hide Lists, HasColon;
    assert forall i | 0 <= i < |p.targets| :: AimedIdle(v, p.isAck, p.targets[i]) == MissesAimed(v, p.targets[i]);
    assert forall i | 0 <= i < |v.receivers| :: HeldFor(v, v.receivers[i]) == Misses(v, v.receivers[i]);
  }

  ghost predicate MissesAimed(v: View, t: string) {
    Lists(v.receivers, t) && t in v.online && t !in v.subscribers
  }

  predicate Misses(v: View, id: string) {
    if HasColon(id) then KernelOf(id) == v.kernel && ConnectorOf(id) in v.online && ConnectorOf(id) !in v.subscribers
    else id in v.online && id !in v.subscribers
  }

  // ------------------------------------------------------------------------------------------
  // Who is buffered for
  // ------------------------------------------------------------------------------------------

  predicate Away(v: View, n: string) {
    n !in v.subscribers && n !in v.online
  }

  lemma {:induction false} SpreadAbsentExactly(v: View, ids: seq<string>, n: string)
    ensures n in SpreadAbsent(v, ids) <==> exists i :: 0 <= i < |ids| && Locate(v, ids[i]) == Local(n) && Away(v, n)
  {
    hide Locate;
    if ids != [] {
      var k := |ids| - 1;
      SpreadAbsentExactly(v, ids[..k], n);
      assert forall i | 0 <= i < k :: ids[..k][i] == ids[i];
      if i :| 0 <= i < |ids| && Locate(v, ids[i]) == Local(n) && Away(v, n) {
        assert i < k ==> ids[..k][i] == ids[i];
      }
    }
  }

  lemma {:induction false} AimedAbsentExactly(v: View, isAck: bool, ids: seq<string>, n: string)
    ensures n in AimedAbsent(v, isAck, ids) <==> n in ids && AimedHere(v, isAck, n) && Away(v, n)
  {
    hide AimedHere;
    if ids != [] {
      var k := |ids| - 1;
      AimedAbsentExactly(v, isAck, ids[..k], n);
      assert ids == ids[..k] + [ids[k]];
    }
  }

  /** A packet that goes out is buffered for exactly its local addressees that are neither subscribed nor
      online: of a broadcast every receiver placed here, of a directed packet every bare target that is
      listed as a receiver. */
  lemma BufferedForExactly(v: View, p: Packet, prev: string, next: map<string, string>, room: bool, n: string)
    requires !p.isAck && LetIn(v, p) && Reaches(v, p)
    ensures n in Push(v, p, false, prev, next, room).absent <==>
      && Away(v, n)
      && (if p.targets == [] then exists i :: 0 <= i < |v.receivers| && Locate(v, v.receivers[i]) == Local(n)
          else n in p.targets && !HasColon(n) && Lists(v.receivers, n))
  {
    hide Lists, MustHold, Forwards, RemoteTargets, Retraces, Reaches, Aimless, Locate, HasColon;
    NoRetrace(v, prev, p);
    SpreadAbsentExactly(v, v.receivers, n);
    AimedAbsentExactly(v, p.isAck, p.targets, n);
    hide SpreadAbsent, AimedAbsent;
    if p.targets != [] {
      AimlessExactly(v, p);
    }
  }

  /** A successfully pushed directed packet reaches the place of every bare target that is listed as a
      receiver: the queue when it has subscribed, its own buffer when it is away, the channel's buffer when it
      is online without a subscription. */
  lemma NoSilentDirectedLoss(v: View, p: Packet, prev: string, next: map<string, string>, room: bool, b: Buffers,
                             n: string)
    requires !p.isAck && Push(v, p, false, prev, next, room).result == Pushed
    requires n in p.targets && !HasColon(n) && Lists(v.receivers, n)
    ensures var o := Push(v, p, false, prev, next, room);
      && (n in v.subscribers ==> o.queued)
      && (n !in v.subscribers && n in v.online ==> o.held)
      && (Away(v, n) ==>
          var mine := BufferOf(BufferAll(b, o.absent, p), n); mine != [] && mine[|mine| - 1] == OfflineCopy(p))
  {
    hide Push, Lists, HasColon, MustHold, BufferAll, OfflineCopy;
    var i :| 0 <= i < |p.targets| && p.targets[i] == n;
    assert Reaches(v, p);
    PushVerdictExactly(v, p, prev, next, room);
    MustHoldExactly(v, p);
    assert n !in v.subscribers && n in v.online ==> MissesAimed(v, p.targets[i]);
    BufferedForExactly(v, p, prev, next, room, n);
    if Away(v, n) {
      BufferedLast(b, Push(v, p, false, prev, next, room).absent, p, n);
    }
  }

  /** A target qualified with this very kernel is no such case: nothing is buffered or held for it, so it is
      reached only if it is subscribed. */
  lemma OwnKernelTargetIsNotKept(v: View, p: Packet, prev: string, next: map<string, string>, room: bool, c: string)
    requires !p.isAck && p.targets == [Qualify(v.kernel, c)] && !HasColon(v.kernel)
    requires forall n | n in v.online :: !HasColon(n)
    ensures var o := Push(v, p, false, prev, next, room);
      o.absent == [] && !o.held && o.forwards == map[]
  {
    QualifySplits(v.kernel, c);
    hide Push, Lists, MustHold, HasColon, Qualify;
    var t := Qualify(v.kernel, c);
    assert p.targets[0] == t && HasColon(t);
    assert Reaches(v, p);
    PushVerdictExactly(v, p, prev, next, room);
    MustHoldExactly(v, p);
    assert forall i | 0 <= i < |p.targets| :: !MissesAimed(v, p.targets[i]);
    NothingAbsent(v, p, prev, next, room);
    NothingElsewhere(v, p, prev, next, room);
  }

  lemma NothingAbsent(v: View, p: Packet, prev: string, next: map<string, string>, room: bool)
    requires !p.isAck && |p.targets| == 1 && HasColon(p.targets[0])
    ensures Push(v, p, false, prev, next, room).absent == []
  {
    hide Lists, MustHold, Forwards, RemoteTargets, Retraces, Aimless, HasColon;
    NoRetrace(v, prev, p);
    assert p.targets[..0] == [];
    assert AimedAbsent(v, p.isAck, p.targets) == [];
  }

  // ------------------------------------------------------------------------------------------
  // Which kernels are sent a directed packet
  // ------------------------------------------------------------------------------------------

  /** The connectors that a packet names on kernel `k`, in order. */
  function NamedOn(ids: seq<string>, k: string): seq<string> {
    if ids == [] then []
    else
      var before, id := NamedOn(ids[..|ids| - 1], k), ids[|ids| - 1];
      if HasColon(id) && KernelOf(id) == k then before + [ConnectorOf(id)] else before
  }

  lemma {:induction false} AimedRemoteExactly(ids: seq<string>, k: string)
    ensures k in AimedRemote(ids) <==> NamedOn(ids, k) != []
    ensures k in AimedRemote(ids) ==> AimedRemote(ids)[k] == NamedOn(ids, k)
  {
    hide HasColon;
    if ids != [] {
      AimedRemoteExactly(ids[..|ids| - 1], k);
    }
  }

  /** The targets a directed packet leaves with: its connectors on that kernel, the first one qualified
      unless it has a colon already. */
  function TargetsFor(k: string, names: seq<string>): seq<string>
    requires names != []
  {
    [if HasColon(names[0]) then names[0] else Qualify(k, names[0])] + names[1..]
  }

  function NextOn(next: map<string, string>, k: string): string {
    if k in next && next[k] != "" then next[k] else k
  }

  /** A directed packet that is not held is sent to exactly the other kernels its targets name, by the next
      hop where there is one, with the connectors named there. */
  lemma DirectedForwardsExactly(v: View, p: Packet, prev: string, next: map<string, string>, room: bool, k: string)
    requires !p.isAck && p.targets != [] && Push(v, p, false, prev, next, room).result == Pushed
    ensures var o, names := Push(v, p, false, prev, next, room), NamedOn(p.targets, k);
      && (k in o.forwards <==> !o.held && k != v.kernel && names != [] && LetIn(v, p))
      && (k in o.forwards ==> o.forwards[k] == Forward(NextOn(next, k), p.(targets := TargetsFor(k, names))))
  {
    hide Lists, MustHold, Retraces, HasColon, Aimless;
    NoRetrace(v, prev, p);
    AimedRemoteExactly(p.targets, k);
    AimlessExactly(v, p);
    hide AimedAbsent, NamedOn;
    if NamedOn(p.targets, k) != [] {
      SomeRemoteReaches(v, p, k);
    }
    hide AimedRemote, Reaches;
  }

  lemma SomeRemoteReaches(v: View, p: Packet, k: string)
    requires NamedOn(p.targets, k) != []
    ensures Reaches(v, p)
  {
    NamedOnSome(p.targets, k);
  }

  lemma {:induction false} NamedOnSome(ids: seq<string>, k: string)
    requires NamedOn(ids, k) != []
    ensures exists i :: 0 <= i < |ids| && HasColon(ids[i])
  {
    var n := |ids| - 1;
    if !HasColon(ids[n]) {
      NamedOnSome(ids[..n], k);
      var i :| 0 <= i < |ids[..n]| && HasColon(ids[..n][i]);
      assert ids[i] == ids[..n][i];
    }
  }

  lemma NothingElsewhere(v: View, p: Packet, prev: string, next: map<string, string>, room: bool)
    requires !p.isAck && |p.targets| == 1 && HasColon(p.targets[0]) && KernelOf(p.targets[0]) == v.kernel
    ensures Push(v, p, false, prev, next, room).forwards == map[]
  {
    hide Lists, MustHold, Retraces, Aimless, HasColon, AbsentTargets;
    NoRetrace(v, prev, p);
    assert p.targets[..0] == [];
    var id := p.targets[0];
    assert AimedRemote(p.targets) == AddTo(map[], KernelOf(id), ConnectorOf(id));
  }

  // ------------------------------------------------------------------------------------------
  // Control messages
  // ------------------------------------------------------------------------------------------

  lemma {:induction false} SenderKernelsExactly(v: View, g: Groups, ids: seq<string>, k: string)
    ensures k in WithSenderKernels(v, g, ids) <==> k in g || exists i :: 0 <= i < |ids| && HostedBy(v, ids[i], k)
  {
    hide Locate;
    if ids != [] {
      var n := |ids| - 1;
      SenderKernelsExactly(v, g, ids[..n], k);
      assert forall i | 0 <= i < n :: ids[..n][i] == ids[i];
      if i :| 0 <= i < |ids| && HostedBy(v, ids[i], k) {
        assert i < n ==> HostedBy(v, ids[..n][i], k);
      }
    }
  }

  lemma {:induction false} SenderKernelsSkipHere(v: View, g: Groups, ids: seq<string>)
    requires v.kernel !in g
    ensures v.kernel !in WithSenderKernels(v, g, ids)
  {
    if ids != [] {
      SenderKernelsSkipHere(v, g, ids[..|ids| - 1]);
    }
  }

  /** Kernel `k` hosts one of the listed names. */
  ghost predicate Hosts(v: View, ids: seq<string>, k: string) {
    exists i :: 0 <= i < |ids| && HostedBy(v, ids[i], k)
  }

  /** A successful control broadcast that is not held is sent, unchanged, to exactly the other kernels that
      host a receiver or a sender. */
  lemma ControlForwardsExactly(v: View, p: Packet, prev: string, next: map<string, string>, room: bool, k: string)
    requires p.targets == [] && !p.isAck && p.kind == Control
    requires Push(v, p, false, prev, next, room).result == Pushed
    ensures var o := Push(v, p, false, prev, next, room);
      && (k in o.forwards <==> !o.held && (Hosts(v, v.receivers, k) || Hosts(v, v.senders, k)))
      && (k in o.forwards ==> o.forwards[k] == Forward(NextOn(next, k), p))
  {
    hide Lists, Locate, MustHold, Retraces, HostedBy, SpreadAbsent;
    NoRetrace(v, prev, p);
    var g := SpreadRemote(v, v.receivers);
    SpreadRemoteKeys(v, v.receivers, k);
    SpreadSkipsHere(v, v.receivers);
    SenderKernelsExactly(v, g, v.senders, k);
    SenderKernelsSkipHere(v, g, v.senders);
    hide SpreadRemote, WithSenderKernels;
    assert p.(targets := []) == p;
  }

  // ------------------------------------------------------------------------------------------
  // ACKs
  // ------------------------------------------------------------------------------------------

  /** The target names another kernel. */
  predicate Elsewhere(v: View, t: string) {
    HasColon(t) && KernelOf(t) != "" && KernelOf(t) != v.kernel
  }

  /** Some target, listed or not, is online here without a subscription. */
  predicate AckMisses(v: View, p: Packet) {
    exists t :: t in p.targets && t in v.online && t !in v.subscribers
  }

  lemma AckHeldExactly(v: View, p: Packet)
    requires p.isAck && p.targets != []
    ensures MustHold(v, p) <==> AckMisses(v, p)
  {
    hide Lists;
    if AckMisses(v, p) {
      var t :| t in p.targets && t in v.online && t !in v.subscribers;
      var i :| 0 <= i < |p.targets| && p.targets[i] == t;
      assert AimedIdle(v, p.isAck, p.targets[i]);
    }
  }

  /** An ACK without targets goes nowhere; whoever sends an ACK, it is refused only by a channel that is not
      active. */
  lemma AckWithoutTargetIsDropped(v: View, p: Packet, prev: string, next: map<string, string>, room: bool)
    requires p.isAck
    ensures v.status != N.Active ==>
      Push(v, p, false, prev, next, room) == Outcome(Refused(NotActive), false, [], false, false, map[])
    ensures v.status == N.Active && p.targets == [] ==>
      Push(v, p, false, prev, next, room) == Outcome(Pushed, true, [], false, false, map[])
  {
  }

  /** Where there is a previous hop, an ACK with a target on another kernel goes back to that hop and nowhere
      else, with the first such target alone; nobody here is queued or buffered for. It waits like any packet
      while a target is online without a subscription. */
  lemma AckTurnsBackExactly(v: View, p: Packet, prev: string, next: map<string, string>, room: bool, i: nat)
    requires p.isAck && v.status == N.Active && prev != "" && prev != v.kernel
    requires i < |p.targets| && Elsewhere(v, p.targets[i]) && forall j | 0 <= j < i :: !Elsewhere(v, p.targets[j])
    ensures Push(v, p, false, prev, next, room) ==
      if !AckMisses(v, p) then
        Outcome(Pushed, true, [], false, false, map[prev := Forward(NextOn(next, prev), p.(targets := [p.targets[i]]))])
      else if v.held < 10000 then Outcome(Pushed, true, [], false, true, map[])
      else Outcome(Refused(BufferFull), true, [], false, false, map[])
  {
    hide Lists, MustHold, AckMisses, HasColon, AimedRemote, AimedAbsent;
    AckHeldExactly(v, p);
    assert forall j | 0 <= j < |p.targets| :: TurnsBack(v, prev, p.targets[j]) == Elsewhere(v, p.targets[j]);
    assert FirstTurn(v, prev, p.targets) == i && HasColon(p.targets[i]);
    hide Elsewhere, TurnsBack;
    var g := map[prev := [p.targets[i]]];
    assert RemoteTargets(v, prev, p) == g && AbsentTargets(v, prev, p) == [];
    assert Outgoing(p, prev, g[prev]) == p.(targets := [p.targets[i]]);
    assert Forwards(v, next, g, p) == map[prev := Forward(NextOn(next, prev), p.(targets := [p.targets[i]]))];
  }

  /** Any other ACK with targets is treated like a directed packet, except that its bare targets need not be
      listed. */
  lemma AckElseExactly(v: View, p: Packet, prev: string, next: map<string, string>, room: bool, n: string, k: string)
    requires p.isAck && v.status == N.Active && p.targets != []
    requires prev == "" || prev == v.kernel || forall t | t in p.targets :: !Elsewhere(v, t)
    ensures var o, names := Push(v, p, false, prev, next, room), NamedOn(p.targets, k);
      var full := v.subscribers != {} && !room;
      && (o.queued <==> v.subscribers != {} && room)
      && o.result == (if full then Refused(QueueFull)
                      else if AckMisses(v, p) && v.held >= 10000 then Refused(BufferFull) else Pushed)
      && (o.held <==> !full && AckMisses(v, p) && v.held < 10000)
      && (n in o.absent <==> n in p.targets && !HasColon(n) && Away(v, n))
      && (k in o.forwards <==> o.result == Pushed && !o.held && k != v.kernel && names != [])
      && (k in o.forwards ==> o.forwards[k] == Forward(NextOn(next, k), p.(targets := TargetsFor(k, names))))
  {
    hide Lists, MustHold, AckMisses, HasColon, Elsewhere, TurnsBack, AimedHere;
    AckHeldExactly(v, p);
    NoTurn(v, p, prev);
    AckHasAim(v, p);
    AimedAbsentExactly(v, p.isAck, p.targets, n);
    AimedRemoteExactly(p.targets, k);
    assert AimedHere(v, true, n) <==> !HasColon(n) by { BareIsAimed(v, n); }
    hide AimedAbsent, AimedRemote, AimedLocal, NamedOn, Aimless, Retraces;
  }

  lemma BareIsAimed(v: View, n: string)
    ensures AimedHere(v, true, n) <==> !HasColon(n)
  {
  }

  lemma NoTurn(v: View, p: Packet, prev: string)
    requires prev == "" || prev == v.kernel || forall t | t in p.targets :: !Elsewhere(v, t)
    ensures !Retraces(v, prev, p)
  {
    forall j | 0 <= j < |p.targets|
      ensures !TurnsBack(v, prev, p.targets[j])
    {
      assert p.targets[j] in p.targets;
    }
  }

  lemma AckHasAim(v: View, p: Packet)
    requires p.isAck && p.targets != []
    ensures !Aimless(v, p)
  {
    hide HasColon, Lists;
    NoRemoteTargets(p.targets);
    NoLocalTargets(v, p.isAck, p.targets);
    hide AimedRemote, AimedLocal;
    assert HasColon(p.targets[0]) || AimedHere(v, p.isAck, p.targets[0]);
  }

  // ------------------------------------------------------------------------------------------
  // Who is sent a packet
  // ------------------------------------------------------------------------------------------

  /** A directed data packet is sent to a subscriber exactly when it is a receiver, no sender and not the
      packet's own sender, and some target is its name, bare or qualified. */
  lemma DirectedSentExactly(senders: seq<string>, receivers: seq<string>, p: Packet, n: string)
    requires p.targets != [] && !p.isAck && p.kind != Evidence && !HasColon(n)
    ensures Receives(senders, receivers, p, n) <==>
      && n != p.sender && !Lists(senders, n) && Lists(receivers, n)
      && exists i :: 0 <= i < |p.targets| && AimedAt(p.targets[i], n)
  {
    hide Named, Lists;
    NamedIsListed(senders, n);
    NamedIsListed(receivers, n);
    assert HasColon(Qualify(p.senderKernel, p.sender));
    hide HasColon;
    forall i | 0 <= i < |p.targets|
      ensures Aims(p.targets[i], n) == AimedAt(p.targets[i], n)
    {
      AimsMeans(p.targets[i], n);
    }
  }

  /** The target is the bare name, or the name after a first colon. */
  ghost predicate AimedAt(t: string, n: string) {
    t == n || exists k: string :: !HasColon(k) && t == Qualify(k, n)
  }

  lemma AimsMeans(t: string, n: string)
    ensures Aims(t, n) == AimedAt(t, n)
  {
    if HasColon(t) {
      SplitQualifies(t);
      assert ConnectorOf(t) == n ==> t == Qualify(KernelOf(t), n);
    }
    if k: string :| !HasColon(k) && t == Qualify(k, n) {
      QualifySplits(k, n);
    }
  }

  /** Evidence and ACKs are sent to senders as well, but never to the one that issued them. */
  lemma EvidenceSentExactly(senders: seq<string>, receivers: seq<string>, p: Packet, n: string)
    requires (p.isAck || p.kind == Evidence) && !HasColon(n) && p.targets == []
    ensures Receives(senders, receivers, p, n) <==> n != p.sender
  {
    assert HasColon(Qualify(p.senderKernel, p.sender));
  }

  /** Replaying goes through the kept packets in order and sends each that passes the test once. */
  lemma {:induction false} ReplayInOrder(senders: seq<string>, receivers: seq<string>, qs: seq<Packet>, rs: seq<Packet>,
                                         n: string)
    ensures Passed(senders, receivers, qs + rs, n)
         == Passed(senders, receivers, qs, n) + Passed(senders, receivers, rs, n)
  {
    hide Receives;
    if rs == [] {
      assert qs + rs == qs;
    } else {
      var k := |rs| - 1;
      ReplayInOrder(senders, receivers, qs, rs[..k], n);
      assert (qs + rs)[..|qs + rs| - 1] == qs + rs[..k];
    }
  }

  lemma ReplayOne(senders: seq<string>, receivers: seq<string>, q: Packet, n: string)
    ensures Passed(senders, receivers, [q], n) == if Receives(senders, receivers, q, n) then [q] else []
  {
    hide Receives;
    assert [q][..0] == [] && Passed(senders, receivers, [], n) == [];
  }

  /** A control message that changes the channel itself is delivered to nobody; nothing else is skipped so. */
  lemma OnlyHandledControlIsSkipped(v: View, p: Packet, prev: string, next: map<string, string>, room: bool)
    ensures Push(v, p, true, prev, next, room) ==
      if p.kind == Control then Outcome(Pushed, false, [], false, false, map[]) else Push(v, p, false, prev, next, room)
  {
  }
}
