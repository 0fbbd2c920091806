/** Delivery of packets on one kernel: PushData sorts a packet's targets into local and remote ones,
    queues it for local subscribers, buffers it for absent ones and forwards it to other kernels
    (`kernel/circulation/channel_manager.go`). Sending to another kernel is an out-parameter; the
    answers of the route look-ups and whether the queue had room are in-parameters. */
module Delivery {
  import opened Names
  import N = Negotiation

  /** MessageType. The empty type and "data" are treated alike. */
  datatype Kind = Data | Control | Evidence | Ack

  datatype Packet = Packet(
    channel: string, number: int, payload: string, signature: string, timestamp: int,
    sender: string, senderKernel: string, targets: seq<string>, kind: Kind, flow: string,
    isFinal: bool, dataHash: string, isAck: bool, ackRecorded: bool)

  const MAX_OFFLINE: nat := 1000
  const MAX_BUFFER: nat := 10000

  /** The copy kept for an offline connector loses the message type and the ACK marks. */
  function OfflineCopy(p: Packet): Packet {
    p.(kind := Data, isAck := false, ackRecorded := false)
  }

  /** The copy kept in the channel's buffer loses the message type and the ACK flag. */
  function HeldCopy(p: Packet): Packet {
    p.(kind := Data, isAck := false)
  }

  // ------------------------------------------------------------------------------------------
  // Offline buffers
  // ------------------------------------------------------------------------------------------

  type Buffers = map<string, seq<Packet>>

  function BufferOf(b: Buffers, connector: string): seq<Packet> {
    if connector in b then b[connector] else []
  }

  function Buffered(b: Buffers, connector: string, p: Packet): Buffers {
    var mine := BufferOf(b, connector);
    b[connector := (if |mine| >= MAX_OFFLINE then mine[1..] else mine) + [OfflineCopy(p)]]
  }

  function BufferAll(b: Buffers, connectors: seq<string>, p: Packet): Buffers {
    if connectors == [] then b
    else Buffered(BufferAll(b, connectors[..|connectors| - 1], p), connectors[|connectors| - 1], p)
  }

  class Connectors {
    const kernelID: string
    var online: set<string>
    var buffers: Buffers

    constructor (kernel: string)
      ensures kernelID == kernel && online == {} && buffers == map[]
    {
      kernelID, online, buffers := kernel, {}, map[];
    }

    method MarkConnectorOnline(connector: string)
      modifies `online
      ensures online == old(online) + {connector}
    {
      online := online + {connector};
    }

    method MarkConnectorOffline(connector: string)
      modifies `online
      ensures online == old(online) - {connector}
    {
      online := online - {connector};
    }

    method BufferDataForOfflineConnector(connector: string, p: Packet)
      modifies `buffers
      ensures buffers == Buffered(old(buffers), connector, p)
    {
      var mine := BufferOf(buffers, connector);
      if |mine| >= MAX_OFFLINE {
        mine := mine[1..];
      }
      buffers := buffers[connector := mine + [OfflineCopy(p)]];
    }

    method GetBufferedDataForConnector(connector: string) returns (packets: seq<Packet>)
      modifies `buffers
      ensures packets == BufferOf(old(buffers), connector)
      ensures buffers == old(buffers)[connector := []]
    {
      packets := BufferOf(buffers, connector);
      buffers := buffers[connector := []];
    }
  }

  datatype BufferOp = Keep(connector: string, p: Packet) | Drain(connector: string)

  function BuffersAfter(ops: seq<BufferOp>): Buffers {
    if ops == [] then map[]
    else
      var b := BuffersAfter(ops[..|ops| - 1]);
      match ops[|ops| - 1]
      case Keep(c, p) => Buffered(b, c, p)
      case Drain(c) => b[c := []]
  }

  /** Copies of the packets kept for `connector` since it was last drained, oldest first. */
  function KeptSince(ops: seq<BufferOp>, connector: string): seq<Packet> {
    if ops == [] then []
    else
      var before := KeptSince(ops[..|ops| - 1], connector);
      match ops[|ops| - 1]
      case Keep(c, p) => if c == connector then before + [OfflineCopy(p)] else before
      case Drain(c) => if c == connector then [] else before
  }

  function Latest(s: seq<Packet>, n: nat): seq<Packet> {
    if |s| <= n then s else s[|s| - n..]
  }

  /** After any history a connector's buffer is the last min(n, 1000) of the n packets kept for it
      since its last drain, in order: what a drain then returns. Other connectors do not matter. */
  lemma {:induction false} BufferIsLatestWindow(ops: seq<BufferOp>, connector: string)
    ensures var kept := KeptSince(ops, connector);
      BufferOf(BuffersAfter(ops), connector) == if |kept| <= 1000 then kept else kept[|kept| - 1000..]
  {
    if ops != [] {
      BufferIsLatestWindow(ops[..|ops| - 1], connector);
    }
  }

  // ------------------------------------------------------------------------------------------
  // Who may send and receive
  // ------------------------------------------------------------------------------------------

  /** Some listed name has the bare name of `id`. */
  ghost predicate Lists(ids: seq<string>, id: string) {
    exists i :: 0 <= i < |ids| && Bare(ids[i]) == Bare(id)
  }

  /** CanSend, CanReceive and IsSender: one scan that compares full and bare names. */
  method ScanRole(ids: seq<string>, id: string) returns (found: bool)
    ensures found == Lists(ids, id)
  {
    var raw := id;
    var idx := LastColon(id);
    if idx != -1 {
      raw := id[idx + 1..];
    }
    for i := 0 to |ids|
      invariant forall k | 0 <= k < i :: Bare(ids[k]) != Bare(id)
    {
      if id == ids[i] {
        return true;
      }
      var at := LastColon(ids[i]);
      if at != -1 {
        if raw == ids[i][at + 1..] {
          return true;
        }
      } else if raw == ids[i] {
        return true;
      }
    }
    return false;
  }

  // ------------------------------------------------------------------------------------------
  // Where a packet goes
  // ------------------------------------------------------------------------------------------

  /** What PushData looks at. */
  datatype View = View(
    kernel: string, status: N.Status, senders: seq<string>, receivers: seq<string>,
    remote: map<string, string>, subscribers: set<string>, online: set<string>, held: nat)

  datatype Place = Local(connector: string) | Remote(kernel: string, connector: string)

  /** Where a listed receiver is. */
  function Locate(v: View, id: string): Place {
    if HasColon(id) then
      if KernelOf(id) == v.kernel then Local(ConnectorOf(id)) else Remote(KernelOf(id), ConnectorOf(id))
    else if id in v.remote && v.remote[id] != v.kernel then Remote(v.remote[id], id)
    else Local(id)
  }

  predicate Absent(v: View, connector: string) {
    connector !in v.subscribers && connector !in v.online
  }

  predicate Idle(v: View, connector: string) {
    connector !in v.subscribers && connector in v.online
  }

  type Groups = map<string, seq<string>>

  function AddTo(g: Groups, kernel: string, connector: string): Groups {
    g[kernel := (if kernel in g then g[kernel] else []) + [connector]]
  }

  /** A broadcast packet's remote receivers by kernel, and its absent local ones. */
  function SpreadRemote(v: View, ids: seq<string>): Groups {
    if ids == [] then map[]
    else
      var g := SpreadRemote(v, ids[..|ids| - 1]);
      match Locate(v, ids[|ids| - 1])
      case Local(_) => g
      case Remote(k, c) => AddTo(g, k, c)
  }

  function SpreadAbsent(v: View, ids: seq<string>): seq<string> {
    if ids == [] then []
    else
      var s := SpreadAbsent(v, ids[..|ids| - 1]);
      match Locate(v, ids[|ids| - 1])
      case Local(c) => if Absent(v, c) then s + [c] else s
      case Remote(_, _) => s
  }

  /** Control messages also go to the kernels of the senders. */
  function WithSenderKernels(v: View, g: Groups, ids: seq<string>): Groups {
    if ids == [] then g
    else
      var h := WithSenderKernels(v, g, ids[..|ids| - 1]);
      match Locate(v, ids[|ids| - 1])
      case Local(_) => h
      case Remote(k, _) => if k in h then h else h[k := [""]]
  }

  /** A directed packet's targets. */
  function AimedRemote(ids: seq<string>): Groups {
    if ids == [] then map[]
    else
      var g, id := AimedRemote(ids[..|ids| - 1]), ids[|ids| - 1];
      if HasColon(id) then AddTo(g, KernelOf(id), ConnectorOf(id)) else g
  }

  ghost predicate AimedHere(v: View, isAck: bool, id: string) {
    !HasColon(id) && (isAck || Lists(v.receivers, id))
  }

  ghost function AimedLocal(v: View, isAck: bool, ids: seq<string>): seq<string> {
    if ids == [] then []
    else
      var s, id := AimedLocal(v, isAck, ids[..|ids| - 1]), ids[|ids| - 1];
      if AimedHere(v, isAck, id) then s + [id] else s
  }

  ghost function AimedAbsent(v: View, isAck: bool, ids: seq<string>): seq<string> {
    if ids == [] then []
    else
      var s, id := AimedAbsent(v, isAck, ids[..|ids| - 1]), ids[|ids| - 1];
      if AimedHere(v, isAck, id) && Absent(v, id) then s + [id] else s
  }

  /** The name under which a listed receiver is looked up when deciding whether to hold the packet. */
  predicate HeldFor(v: View, id: string) {
    if HasColon(id) then KernelOf(id) == v.kernel && Idle(v, ConnectorOf(id)) else Idle(v, id)
  }

  ghost predicate AimedIdle(v: View, isAck: bool, id: string) {
    (isAck || Lists(v.receivers, id)) && Idle(v, id)
  }

  /** Some receiver is online here but has not subscribed: the packet is held in the channel. */
  ghost predicate MustHold(v: View, p: Packet) {
    if p.targets == [] then exists i :: 0 <= i < |v.receivers| && HeldFor(v, v.receivers[i])
    else exists i :: 0 <= i < |p.targets| && AimedIdle(v, p.isAck, p.targets[i])
  }

  /** A target of an ACK that lies behind the previous hop. */
  predicate TurnsBack(v: View, prev: string, id: string) {
    HasColon(id) && KernelOf(id) != "" && KernelOf(id) != v.kernel && prev != "" && prev != v.kernel
  }

  function FirstTurn(v: View, prev: string, ids: seq<string>): (n: nat)
    ensures n <= |ids|
    ensures n < |ids| ==> TurnsBack(v, prev, ids[n])
    ensures forall i | 0 <= i < n :: !TurnsBack(v, prev, ids[i])
  {
    if ids == [] then 0
    else if TurnsBack(v, prev, ids[0]) then 0
    else 1 + FirstTurn(v, prev, ids[1..])
  }

  ghost predicate Retraces(v: View, prev: string, p: Packet) {
    p.isAck && FirstTurn(v, prev, p.targets) < |p.targets|
  }

  ghost function RemoteTargets(v: View, prev: string, p: Packet): Groups {
    if Retraces(v, prev, p) then map[prev := [p.targets[FirstTurn(v, prev, p.targets)]]]
    else if p.targets != [] then AimedRemote(p.targets)
    else if p.kind == Control then WithSenderKernels(v, SpreadRemote(v, v.receivers), v.senders)
    else SpreadRemote(v, v.receivers)
  }

  ghost function AbsentTargets(v: View, prev: string, p: Packet): seq<string> {
    if Retraces(v, prev, p) then []
    else if p.targets != [] then AimedAbsent(v, p.isAck, p.targets)
    else SpreadAbsent(v, v.receivers)
  }

  /** The packet as it leaves for kernel `k`. */
  function Outgoing(p: Packet, k: string, names: seq<string>): Packet {
    if p.targets == [] || names == [] then p.(targets := [])
    else p.(targets := [if HasColon(names[0]) then names[0] else Qualify(k, names[0])] + names[1..])
  }

  datatype Forward = Forward(via: string, packet: Packet)

  function Via(next: map<string, string>, k: string): string {
    if k in next && next[k] != "" then next[k] else k
  }

  /** What is sent on, by final kernel. */
  function Forwards(v: View, next: map<string, string>, g: Groups, p: Packet): map<string, Forward> {
    map k | k in g && k != v.kernel :: Forward(Via(next, k), Outgoing(p, k, g[k]))
  }

  datatype Refusal = NotActive | NotAuthorized | QueueFull | BufferFull

  datatype Result = Pushed | Refused(why: Refusal)

  datatype Outcome = Outcome(
    result: Result, sawFlow: bool, absent: seq<string>, queued: bool, held: bool, forwards: map<string, Forward>)

  const NOTHING := Outcome(Pushed, false, [], false, false, map[])

  ghost predicate Aimless(v: View, p: Packet) {
    AimedRemote(p.targets) == map[] && AimedLocal(v, p.isAck, p.targets) == []
  }

  ghost predicate Authorized(v: View, p: Packet) {
    p.isAck || p.kind == Evidence || Lists(v.senders, p.sender)
  }

  /** Buffering, queueing and forwarding of an accepted packet. */
  ghost function Deliveries(v: View, p: Packet, prev: string, next: map<string, string>, room: bool): (o: Outcome)
    ensures o.sawFlow
  {
    var absent := AbsentTargets(v, prev, p);
    var queued := v.subscribers != {} && !Retraces(v, prev, p);
    if queued && !room then Outcome(Refused(QueueFull), true, absent, false, false, map[])
    else if MustHold(v, p) then
      if v.held >= MAX_BUFFER then Outcome(Refused(BufferFull), true, absent, queued, false, map[])
      else Outcome(Pushed, true, absent, queued, true, map[])
    else Outcome(Pushed, true, absent, queued, false, Forwards(v, next, RemoteTargets(v, prev, p), p))
  }

  /** The same where a packet without any valid target is dropped. */
  ghost function Routed(v: View, p: Packet, prev: string, next: map<string, string>, room: bool): (o: Outcome)
    ensures o.sawFlow
  {
    if p.isAck && p.targets == [] then NOTHING.(sawFlow := true)
    else if !Retraces(v, prev, p) && p.targets != [] && Aimless(v, p) then NOTHING.(sawFlow := true)
    else Deliveries(v, p, prev, next, room)
  }

  /** All of PushData. `handled`: a control message that changes the channel itself and is not
      delivered to anyone. */
  ghost function Push(v: View, p: Packet, handled: bool, prev: string, next: map<string, string>, room: bool): Outcome {
    if p.kind == Control && handled then NOTHING
    else if v.status != N.Active then NOTHING.(result := Refused(NotActive))
    else if !Authorized(v, p) then NOTHING.(result := Refused(NotAuthorized))
    else Routed(v, p, prev, next, room)
  }

  // ------------------------------------------------------------------------------------------
  // The loops of PushData
  // ------------------------------------------------------------------------------------------

  method FindTurn(v: View, prev: string, p: Packet) returns (retraces: bool, g: Groups)
    ensures retraces == Retraces(v, prev, p)
    ensures g == if retraces then RemoteTargets(v, prev, p) else map[]
  {
    if p.isAck {
      for i := 0 to |p.targets|
        invariant forall k | 0 <= k < i :: !TurnsBack(v, prev, p.targets[k])
      {
        var id := p.targets[i];
        if HasColon(id) {
          var origin := KernelOf(id);
          if origin != "" && origin != v.kernel && prev != "" && prev != v.kernel {
            assert TurnsBack(v, prev, id);
            return true, map[prev := [id]];
          }
        }
      }
    }
    return false, map[];
  }

  method SortTargets(v: View, p: Packet) returns (g: Groups, here: seq<string>, absent: seq<string>)
    ensures g == AimedRemote(p.targets) && here == AimedLocal(v, p.isAck, p.targets)
    ensures absent == AimedAbsent(v, p.isAck, p.targets)
  {
    var ids := p.targets;
    g, here, absent := map[], [], [];
    for i := 0 to |ids|
      invariant g == AimedRemote(ids[..i])
      invariant here == AimedLocal(v, p.isAck, ids[..i])
      invariant absent == AimedAbsent(v, p.isAck, ids[..i])
    {
      var id := ids[i];
      assert ids[..i + 1][..i] == ids[..i];
      var listed := ScanRole(v.receivers, id);
      assert AimedHere(v, p.isAck, id) == (!HasColon(id) && (listed || p.isAck));
      hide AimedHere, Lists, HasColon;
      if HasColon(id) {
        g := AddTo(g, KernelOf(id), ConnectorOf(id));
      } else {
        if listed || p.isAck {
          here := here + [id];
          if id !in v.subscribers && id !in v.online {
            absent := absent + [id];
          }
        }
      }
    }
    assert ids[..|ids|] == ids;
  }

  method SortReceivers(v: View) returns (g: Groups, absent: seq<string>)
    ensures g == SpreadRemote(v, v.receivers) && absent == SpreadAbsent(v, v.receivers)
  {
    hide AddTo, HasColon;
    var ids := v.receivers;
    g, absent := map[], [];
    for i := 0 to |ids|
      invariant g == SpreadRemote(v, ids[..i]) && absent == SpreadAbsent(v, ids[..i])
    {
      var id := ids[i];
      assert ids[..i + 1][..i] == ids[..i];
      var name := id;
      if HasColon(id) {
        if KernelOf(id) != v.kernel {
          g := AddTo(g, KernelOf(id), ConnectorOf(id));
          continue;
        }
        name := ConnectorOf(id);
      } else if id in v.remote && v.remote[id] != v.kernel {
        g := AddTo(g, v.remote[id], id);
        continue;
      }
      if name !in v.subscribers && name !in v.online {
        absent := absent + [name];
      }
    }
    assert ids[..|ids|] == ids;
  }

  method AddSenderKernels(v: View, start: Groups) returns (g: Groups)
    ensures g == WithSenderKernels(v, start, v.senders)
  {
    var ids := v.senders;
    g := start;
    for i := 0 to |ids|
      invariant g == WithSenderKernels(v, start, ids[..i])
    {
      var id := ids[i];
      assert ids[..i + 1][..i] == ids[..i];
      if HasColon(id) {
        if KernelOf(id) != v.kernel && KernelOf(id) !in g {
          g := g[KernelOf(id) := [""]];
        }
      } else if id in v.remote && v.remote[id] != v.kernel && v.remote[id] !in g {
        g := g[v.remote[id] := [""]];
      }
    }
    assert ids[..|ids|] == ids;
  }

  /** The remote and the absent local receivers of a packet, or that it has no valid target at all. */
  method SortOut(v: View, prev: string, p: Packet)
    returns (retraces: bool, aimless: bool, g: Groups, absent: seq<string>)
    requires p.isAck ==> p.targets != []
    ensures retraces == Retraces(v, prev, p)
    ensures aimless == (!retraces && p.targets != [] && Aimless(v, p))
    ensures g == RemoteTargets(v, prev, p) && absent == AbsentTargets(v, prev, p)
  {
    hide AimedRemote, AimedAbsent, AimedLocal, SpreadRemote, SpreadAbsent, WithSenderKernels;
    aimless, absent := false, [];
    retraces, g := FindTurn(v, prev, p);
    if retraces {
      return;
    }
    hide Retraces;
    if p.targets != [] {
      var here;
      g, here, absent := SortTargets(v, p);
      aimless := here == [] && g == map[];
    } else {
      g, absent := SortReceivers(v);
      if p.kind == Control {
        g := AddSenderKernels(v, g);
      }
    }
  }

  method ShouldHold(v: View, p: Packet) returns (hold: bool)
    ensures hold == MustHold(v, p)
  {
    hold := false;
    if |p.targets| > 0 {
      for i := 0 to |p.targets|
        invariant hold <==> exists k :: 0 <= k < i && AimedIdle(v, p.isAck, p.targets[k])
      {
        var id := p.targets[i];
        var listed := ScanRole(v.receivers, id);
        if (listed || p.isAck) && id !in v.subscribers && id in v.online {
          hold := true;
        }
      }
    } else {
      for i := 0 to |v.receivers|
        invariant hold <==> exists k :: 0 <= k < i && HeldFor(v, v.receivers[k])
      {
        var name := v.receivers[i];
        if HasColon(name) {
          if KernelOf(name) != v.kernel {
            continue;
          }
          name := ConnectorOf(name);
        }
        if name !in v.subscribers && name in v.online {
          hold := true;
        }
      }
    }
  }

  method ForwardAll(v: View, next: map<string, string>, g: Groups, p: Packet) returns (sent: map<string, Forward>)
    ensures sent == Forwards(v, next, g, p)
  {
    var todo := g.Keys;
    sent := map[];
    while todo != {}
      invariant todo <= g.Keys
      invariant sent == map k | k in g && k != v.kernel && k !in todo :: Forward(Via(next, k), Outgoing(p, k, g[k]))
    {
      var k :| k in todo;
      todo := todo - {k};
      if k != v.kernel {
        var via := k;
        if k in next && next[k] != "" {
          via := next[k];
        }
        var names := [];
        if p.targets != [] {
          names := g[k];
          if names != [] && !HasColon(names[0]) {
            names := [Qualify(k, names[0])] + names[1..];
          }
        }
        assert p.targets != [] && g[k] != [] ==> g[k] == [g[k][0]] + g[k][1..];
        sent := sent[k := Forward(via, p.(targets := names))];
      }
    }
  }

  // ------------------------------------------------------------------------------------------
  // Who is sent a packet
  // ------------------------------------------------------------------------------------------

  predicate Goes(id: string, n: string) {
    n == id || n == Bare(id)
  }

  ghost predicate Named(ids: seq<string>, n: string) {
    exists i :: 0 <= i < |ids| && Goes(ids[i], n)
  }

  predicate Aims(target: string, n: string) {
    target == n || (HasColon(target) && ConnectorOf(target) == n)
  }

  /** Subscriber `n` is sent packet `p`: not its own, for business data only as a pure receiver, and
      only when addressed. */
  ghost predicate Receives(senders: seq<string>, receivers: seq<string>, p: Packet, n: string) {
    && n != p.sender
    && !(p.senderKernel != "" && p.sender != "" && n == Qualify(p.senderKernel, p.sender))
    && (p.isAck || p.kind == Evidence || (!Named(senders, n) && Named(receivers, n)))
    && (p.targets == [] || exists i :: 0 <= i < |p.targets| && Aims(p.targets[i], n))
  }

  ghost function Passed(senders: seq<string>, receivers: seq<string>, kept: seq<Packet>, n: string): seq<Packet> {
    if kept == [] then []
    else
      var s, p := Passed(senders, receivers, kept[..|kept| - 1], n), kept[|kept| - 1];
      if Receives(senders, receivers, p, n) then s + [p] else s
  }

  ghost function Distributed(senders: seq<string>, receivers: seq<string>, subs: map<string, seq<Packet>>, p: Packet)
    : map<string, seq<Packet>>
  {
    map n | n in subs :: subs[n] + if Receives(senders, receivers, p, n) then [p] else []
  }

  ghost predicate HostedBy(v: View, id: string, k: string) {
    Locate(v, id).Remote? && Locate(v, id).kernel == k
  }

  method ScanNamed(ids: seq<string>, n: string) returns (found: bool)
    ensures found == Named(ids, n)
  {
    for i := 0 to |ids|
      invariant forall k | 0 <= k < i :: !Goes(ids[k], n)
    {
      var raw := ids[i];
      var at := LastColon(raw);
      if at != -1 {
        raw := raw[at + 1..];
      }
      if n == raw || n == ids[i] {
        assert Goes(ids[i], n);
        return true;
      }
    }
    return false;
  }

  method ScanTargets(ids: seq<string>, n: string) returns (found: bool)
    ensures found <==> exists i :: 0 <= i < |ids| && Aims(ids[i], n)
  {
    for i := 0 to |ids|
      invariant forall k | 0 <= k < i :: !Aims(ids[k], n)
    {
      if ids[i] == n || (HasColon(ids[i]) && ConnectorOf(ids[i]) == n) {
        assert Aims(ids[i], n);
        return true;
      }
    }
    return false;
  }

  datatype Subscription = Subscribed | NoChannel | NotListed | Already

  class Channel {
    const manager: Connectors
    var status: N.Status
    var senders: seq<string>
    var receivers: seq<string>
    var remote: map<string, string>
    var subscribers: map<string, seq<Packet>>  // what each subscription has been sent
    var queue: seq<Packet>
    var buffer: seq<Packet>
    var flow: string

    constructor (m: Connectors, from: seq<string>, to: seq<string>, elsewhere: map<string, string>)
      ensures manager == m && status == N.Proposed && senders == from && receivers == to && remote == elsewhere
      ensures subscribers == map[] && queue == [] && buffer == [] && flow == ""
    {
      manager, status, senders, receivers, remote := m, N.Proposed, from, to, elsewhere;
      subscribers, queue, buffer, flow := map[], [], [], "";
    }

    function Now(): View
      reads this, manager
    {
      View(manager.kernelID, status, senders, receivers, remote, subscribers.Keys, manager.online, |buffer|)
    }

    /** Everything PushData leaves behind. */
    twostate predicate Follows(o: Outcome, p: Packet)
      reads this, manager
    {
      && queue == old(queue) + (if o.queued then [p] else [])
      && buffer == old(buffer) + (if o.held then [HeldCopy(p)] else [])
      && manager.buffers == BufferAll(old(manager.buffers), o.absent, p)
      && flow == if o.sawFlow && p.flow != "" then p.flow else old(flow)
    }

    method BufferFor(absent: seq<string>, p: Packet)
      modifies manager`buffers
      ensures manager.buffers == BufferAll(old(manager.buffers), absent, p)
    {
      for i := 0 to |absent|
        invariant manager.buffers == BufferAll(old(manager.buffers), absent[..i], p)
      {
        assert absent[..i + 1][..i] == absent[..i];
        manager.BufferDataForOfflineConnector(absent[i], p);
      }
      assert absent[..|absent|] == absent;
    }

    method PushData(p: Packet, handled: bool, prev: string, next: map<string, string>, room: bool)
      returns (result: Result, forwards: map<string, Forward>)
      modifies `queue, `buffer, `flow, manager`buffers
      ensures var o := Push(old(Now()), p, handled, prev, next, room);
        result == o.result && forwards == o.forwards && Follows(o, p)
      ensures flow == if p.flow != "" && !(p.kind == Control && handled) && status == N.Active
                         && (p.isAck || p.kind == Evidence || Lists(senders, p.sender))
                      then p.flow else old(flow)
    {
      hide Routed, Lists;
      if p.kind == Control && handled {
        return Pushed, map[];
      }
      if status != N.Active {
        return Refused(NotActive), map[];
      }
      if !p.isAck && p.kind != Evidence {
        var may := ScanRole(senders, p.sender);
        if !may {
          return Refused(NotAuthorized), map[];
        }
      }
      if p.flow != "" {
        flow := p.flow;
      }
      result, forwards := Dispatch(p, prev, next, room);
    }

    method Dispatch(p: Packet, prev: string, next: map<string, string>, room: bool)
      returns (result: Result, forwards: map<string, Forward>)
      modifies `queue, `buffer, manager`buffers
      ensures var o := Routed(old(Now()), p, prev, next, room);
        && result == o.result && forwards == o.forwards
        && queue == old(queue) + (if o.queued then [p] else [])
        && buffer == old(buffer) + (if o.held then [HeldCopy(p)] else [])
        && manager.buffers == BufferAll(old(manager.buffers), o.absent, p)
    {
      hide Deliveries, Retraces, RemoteTargets, AbsentTargets, Aimless;
      if p.isAck && p.targets == [] {
        return Pushed, map[];
      }
      var retraces, aimless, g, absent := SortOut(Now(), prev, p);
      if aimless {
        return Pushed, map[];
      }
      result, forwards := Deliver(p, prev, next, room, retraces, g, absent);
    }

    method Deliver(p: Packet, prev: string, next: map<string, string>, room: bool,
                   retraces: bool, g: Groups, absent: seq<string>)
      returns (result: Result, forwards: map<string, Forward>)
      requires retraces == Retraces(Now(), prev, p)
      requires g == RemoteTargets(Now(), prev, p) && absent == AbsentTargets(Now(), prev, p)
      modifies `queue, `buffer, manager`buffers
      ensures var o := Deliveries(old(Now()), p, prev, next, room);
        && result == o.result && forwards == o.forwards
        && queue == old(queue) + (if o.queued then [p] else [])
        && buffer == old(buffer) + (if o.held then [HeldCopy(p)] else [])
        && manager.buffers == BufferAll(old(manager.buffers), o.absent, p)
    {
      hide MustHold, Retraces, RemoteTargets, AbsentTargets, Forwards, BufferAll;
      var v := Now();
      BufferFor(absent, p);
      var hold := ShouldHold(v, p);
      if subscribers.Keys != {} && !retraces {
        if !room {
          return Refused(QueueFull), map[];
        }
        queue := queue + [p];
      }
      if hold {
        if |buffer| >= MAX_BUFFER {
          return Refused(BufferFull), map[];
        }
        buffer := buffer + [HeldCopy(p)];
        return Pushed, map[];
      }
      forwards := ForwardAll(v, next, g, p);
      result := Pushed;
    }

    /** shouldSendToSubscriber */
    method ShouldSend(p: Packet, n: string) returns (send: bool)
      ensures send == Receives(senders, receivers, p, n)
    {
      if p.sender == n {
        return false;
      }
      if p.senderKernel != "" && p.sender != "" && Qualify(p.senderKernel, p.sender) == n {
        return false;
      }
      if !p.isAck && p.kind != Evidence {
        var isSender := ScanNamed(senders, n);
        if isSender {
          return false;
        }
        var isReceiver := ScanNamed(receivers, n);
        if !isReceiver {
          return false;
        }
      }
      if p.targets == [] {
        return true;
      }
      send := ScanTargets(p.targets, n);
    }

    /** Replays the packets kept so far to a new subscription. */
    method Replay(kept: seq<Packet>, n: string) returns (sent: seq<Packet>)
      ensures sent == Passed(senders, receivers, kept, n)
    {
      sent := [];
      for i := 0 to |kept|
        invariant sent == Passed(senders, receivers, kept[..i], n)
      {
        assert kept[..i + 1][..i] == kept[..i];
        var send := ShouldSend(kept[i], n);
        if send {
          sent := sent + [kept[i]];
        }
      }
      assert kept[..|kept|] == kept;
    }

    method Subscribe(n: string) returns (result: Subscription)
      modifies `subscribers, manager`buffers
      ensures result == (
        if status != N.Active then NoChannel
        else if !Lists(receivers, n) && !Lists(senders, n) then NotListed
        else if n in old(subscribers) then Already
        else Subscribed)
      ensures result != Subscribed ==> subscribers == old(subscribers) && manager.buffers == old(manager.buffers)
      ensures result == Subscribed ==>
        && subscribers == old(subscribers)[n :=
             Passed(senders, receivers, buffer + BufferOf(old(manager.buffers), n), n)]
        && manager.buffers == old(manager.buffers)[n := []]
    {
      if status != N.Active {
        return NoChannel;
      }
      var mayReceive := ScanRole(receivers, n);
      var maySend := ScanRole(senders, n);
      if !mayReceive && !maySend {
        return NotListed;
      }
      if n in subscribers {
        return Already;
      }
      var kept := manager.GetBufferedDataForConnector(n);
      var sent := Replay(buffer + kept, n);
      subscribers := subscribers[n := sent];
      return Subscribed;
    }

    method SubscribeWithRecovery(n: string, isRestart: bool) returns (ok: bool)
      modifies `subscribers, manager`buffers
      ensures ok == (status == N.Active)
      ensures !ok ==> subscribers == old(subscribers)
      ensures ok ==> subscribers == old(subscribers)[n := Passed(senders, receivers,
        buffer + (if isRestart then BufferOf(old(manager.buffers), n) else []), n)]
      ensures manager.buffers == if ok && isRestart then old(manager.buffers)[n := []] else old(manager.buffers)
    {
      if status != N.Active {
        return false;
      }
      var kept := [];
      if isRestart {
        kept := manager.GetBufferedDataForConnector(n);
      }
      var sent := Replay(buffer + kept, n);
      subscribers := subscribers[n := sent];
      return true;
    }

    method Unsubscribe(n: string)
      modifies `subscribers
      ensures subscribers == old(subscribers) - {n}
    {
      if n in subscribers {
        subscribers := subscribers - {n};
      }
    }

    /** One round of startDataDistribution. */
    method DistributeNext()
      requires queue != []
      modifies `queue, `subscribers
      ensures queue == old(queue)[1..]
      ensures subscribers == Distributed(senders, receivers, old(subscribers), old(queue)[0])
    {
      var p := queue[0];
      queue := queue[1..];
      var todo := subscribers.Keys;
      while todo != {}
        invariant queue == old(queue)[1..] && todo <= subscribers.Keys && subscribers.Keys == old(subscribers).Keys
        invariant forall n | n in subscribers ::
          subscribers[n] == old(subscribers)[n] + if n !in todo && Receives(senders, receivers, p, n) then [p] else []
      {
        var n :| n in todo;
        todo := todo - {n};
        var send := ShouldSend(p, n);
        if send {
          subscribers := subscribers[n := subscribers[n] + [p]];
        }
      }
    }
  }

  // ------------------------------------------------------------------------------------------
  // No local receiver is forgotten
  // ------------------------------------------------------------------------------------------

  lemma {:induction false} AbsentAreCollected(v: View, ids: seq<string>, i: nat)
    requires i < |ids| && Locate(v, ids[i]).Local? && Absent(v, Locate(v, ids[i]).connector)
    ensures Locate(v, ids[i]).connector in SpreadAbsent(v, ids)
  {
    if i < |ids| - 1 {
      AbsentAreCollected(v, ids[..|ids| - 1], i);
    }
  }

  lemma {:induction false} BufferedLast(b: Buffers, names: seq<string>, p: Packet, n: string)
    requires n in names
    ensures var mine := BufferOf(BufferAll(b, names, p), n); mine != [] && mine[|mine| - 1] == OfflineCopy(p)
  {
    var k := |names| - 1;
    if names[k] != n {
      assert n in names[..k];
      BufferedLast(b, names[..k], p, n);
    }
  }

  /** A successfully pushed broadcast data packet reaches every local receiver's place: the queue when
      it has subscribed, its offline buffer when it is away, the channel's buffer when it is online
      without a subscription. */
  lemma NoSilentLocalLoss(v: View, p: Packet, prev: string, next: map<string, string>, room: bool, b: Buffers, i: nat)
    requires p.targets == [] && !p.isAck && p.kind != Control
    requires Push(v, p, false, prev, next, room).result == Pushed
    requires i < |v.receivers| && Locate(v, v.receivers[i]).Local?
    ensures var n, o := Locate(v, v.receivers[i]).connector, Push(v, p, false, prev, next, room);
      && (n in v.subscribers ==> o.queued)
      && (Idle(v, n) ==> o.held)
      && (Absent(v, n) ==>
          var mine := BufferOf(BufferAll(b, o.absent, p), n); mine != [] && mine[|mine| - 1] == OfflineCopy(p))
  {
    hide Lists, Locate, SpreadRemote, Forwards, BufferAll, HeldFor, Retraces;
    var n := Locate(v, v.receivers[i]).connector;
    NoRetrace(v, prev, p);
    if Absent(v, n) {
      AbsentAreCollected(v, v.receivers, i);
      BufferedLast(b, SpreadAbsent(v, v.receivers), p, n);
    } else if Idle(v, n) {
      LocalIsHeldFor(v, v.receivers[i]);
    }
  }

  lemma NoRetrace(v: View, prev: string, p: Packet)
    requires !p.isAck
    ensures !Retraces(v, prev, p)
  {
  }

  lemma LocalIsHeldFor(v: View, id: string)
    requires Locate(v, id).Local? && Idle(v, Locate(v, id).connector)
    ensures HeldFor(v, id)
  {
  }

  /** Whichever of the three places it was put in, a local receiver is later sent the packet exactly
      when it is not also a sender: from the queue, or from the copies on subscription. */
  lemma LocalReceiverIsSent(v: View, p: Packet, i: nat)
    requires p.targets == [] && !p.isAck && p.kind == Data
    requires i < |v.receivers| && Locate(v, v.receivers[i]).Local?
    requires !HasColon(Locate(v, v.receivers[i]).connector)
    ensures var n := Locate(v, v.receivers[i]).connector;
      && Receives(v.senders, v.receivers, OfflineCopy(p), n) == Receives(v.senders, v.receivers, p, n)
      && Receives(v.senders, v.receivers, HeldCopy(p), n) == Receives(v.senders, v.receivers, p, n)
      && (Receives(v.senders, v.receivers, p, n) <==> n != p.sender && !Lists(v.senders, n))
  {
    var id, n := v.receivers[i], Locate(v, v.receivers[i]).connector;
    if HasColon(id) {
      SplitQualifies(id);
      BareOfQualified(KernelOf(id), n);
    }
    assert Named(v.receivers, n);
    NamedIsListed(v.senders, n);
  }

  lemma NamedIsListed(ids: seq<string>, n: string)
    requires !HasColon(n)
    ensures Named(ids, n) == Lists(ids, n)
  {
    if Lists(ids, n) {
      var i :| 0 <= i < |ids| && Bare(ids[i]) == Bare(n);
    }
  }

  // ------------------------------------------------------------------------------------------
  // Which kernels are sent a packet
  // ------------------------------------------------------------------------------------------

  lemma {:induction false} SpreadRemoteKeys(v: View, ids: seq<string>, k: string)
    ensures k in SpreadRemote(v, ids) <==> exists i :: 0 <= i < |ids| && HostedBy(v, ids[i], k)
  {
    if ids != [] {
      var n := |ids| - 1;
      SpreadRemoteKeys(v, ids[..n], k);
      assert HostedBy(v, ids[n], k) ==> k in SpreadRemote(v, ids);
    }
  }

  /** A successful broadcast data packet is sent to exactly the other kernels that host a receiver, and
      unchanged - unless it is held for an idle local receiver, when no other kernel is sent it. */
  lemma BroadcastForwardsExactly(v: View, p: Packet, prev: string, next: map<string, string>, room: bool, k: string)
    requires p.targets == [] && !p.isAck && p.kind != Control
    requires Push(v, p, false, prev, next, room).result == Pushed
    ensures var o := Push(v, p, false, prev, next, room);
      && (k in o.forwards <==> !o.held && exists i :: 0 <= i < |v.receivers| && HostedBy(v, v.receivers[i], k))
      && (k in o.forwards ==> o.forwards[k] == Forward(Via(next, k), p))
      && (o.held <==> exists i :: 0 <= i < |v.receivers| && HeldFor(v, v.receivers[i]))
  {
    hide Lists, Locate, SpreadRemote, SpreadAbsent, HeldFor, Retraces, HostedBy;
    NoRetrace(v, prev, p);
    SpreadRemoteKeys(v, v.receivers, k);
    SpreadSkipsHere(v, v.receivers);
    assert p.(targets := []) == p;
  }

  lemma {:induction false} SpreadSkipsHere(v: View, ids: seq<string>)
    ensures v.kernel !in SpreadRemote(v, ids)
  {
    if ids != [] {
      SpreadSkipsHere(v, ids[..|ids| - 1]);
    }
  }

  lemma {:induction false} BareTargetsStay(k: string, a: string, rest: seq<string>)
    requires !HasColon(k) && forall i | 0 <= i < |rest| :: !HasColon(rest[i])
    ensures AimedRemote([Qualify(k, a)] + rest) == map[k := [a]]
  {
    var ids := [Qualify(k, a)] + rest;
    if rest == [] {
      QualifySplits(k, a);
      var id := ids[|ids| - 1];
      assert id == Qualify(k, a) && HasColon(id);
      assert AimedRemote(ids) == AddTo(AimedRemote(ids[..0]), KernelOf(id), ConnectorOf(id));
      assert [] + [a] == [a];
    } else {
      BareTargetsStay(k, a, rest[..|rest| - 1]);
      assert ids[..|ids| - 1] == [Qualify(k, a)] + rest[..|rest| - 1];
    }
  }

  /** A directed packet for several connectors of one kernel names only the first with its kernel. A
      kernel in between therefore passes on the first name alone: nothing is dropped on the way
      exactly when there was one name. */
  lemma RelayKeepsFirstName(v: View, prev: string, p: Packet, k: string, names: seq<string>)
    requires p.targets != [] && !p.isAck && !HasColon(k) && k != v.kernel
    requires names != [] && forall i | 0 <= i < |names| :: !HasColon(names[i])
    ensures var relayed := Outgoing(p, k, names);
      && RemoteTargets(v, prev, relayed) == map[k := [names[0]]]
      && Outgoing(relayed, k, [names[0]]).targets == [Qualify(k, names[0])]
      && (Outgoing(relayed, k, [names[0]]) == relayed <==> |names| == 1)
  {
    BareTargetsStay(k, names[0], names[1..]);
  }
}
