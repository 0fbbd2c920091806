/** Data on its way from a sending connector over the kernels of a path to a receiving connector, and
    the ACKs on their way back. Node 0 is the sender, nodes 1 to n are the kernels, node n + 1 is the
    receiver; each keeps its own business chain of the channel. A kernel other than the first passes a
    packet on before it writes its row, so the two are separate steps, between which ACKs may arrive;
    steps of different nodes interleave in any order. Signatures are parameters of the steps. */
module PathChain {
  import opened Wrappers
  import opened BusinessChain
  import opened ChainHistory

  datatype Packet = Packet(payload: string, hash: string, sig: string)

  /** What a row says apart from its channel and its link to the row before. */
  datatype Mark = Mark(hash: string, prevSig: string, sig: string)

  /** A node: the channel's rows, data packets and ACK signatures that have arrived, and a row that is
      signed and passed on but not yet written. `handled` records the payloads dealt with so far. */
  datatype Node = Node(
    rows: seq<Row>, inbox: seq<Packet>, data: Option<Mark>, acks: seq<string>, ack: Option<Mark>, handled: seq<string>)

  datatype Net = Net(ch: string, nodes: seq<Node>, sent: seq<string>, used: set<string>, mismatches: nat)

  // ------------------------------------------------------------------------------------------
  // What one node does
  // ------------------------------------------------------------------------------------------

  function Written(ch: string, c: seq<Row>, m: Mark): seq<Row> {
    c + [Row(ch, m.hash, LastHash(c), m.prevSig, m.sig)]
  }

  /** RecordAck on the rows of the channel. */
  function AckWritten(ch: string, c: seq<Row>, m: Mark): seq<Row> {
    if HasAck(First(c), m.prevSig) then c else c + [AckRow(ch, m.prevSig, m.sig)]
  }

  predicate Mismatch(p: Packet, computed: string) {
    p.hash != "" && computed != p.hash
  }

  /** A node with these rows that has just received `p`. */
  function Holding(c: seq<Row>, p: Packet): Node {
    Node(c, [p], None, [], None, [])
  }

  class Kernel {
    const h: string -> string
    const chain: KernelChain

    constructor (hash: string -> string)
      ensures h == hash && fresh(chain) && chain.rows == []
    {
      h := hash;
      chain := new KernelChain();
    }

    /** The data hash this kernel computes for a payload from its own rows. */
    method Compute(ch: string, payload: string) returns (computed: string, prevHash: string)
      ensures prevHash == LastHash(OfChannel(chain.rows, ch)) && computed == h(payload + prevHash)
    {
      prevHash := chain.GetLastDataHash(ch);
      if prevHash != "" {
        computed := h(payload + prevHash);
      } else {
        assert payload + "" == payload;
        computed := h(payload);
      }
    }

    /** StreamData at the sender's kernel: computes, writes and sends on, with its own hash. */
    method StreamData(ch: string, p: Packet, sig: string) returns (out: Packet, mismatch: bool)
      modifies chain
      ensures out == Packet(p.payload, h(p.payload + LastHash(old(OfChannel(chain.rows, ch)))), sig)
      ensures mismatch <==> p.hash != "" && p.hash != out.hash
      ensures OfChannel(chain.rows, ch) == Written(ch, old(OfChannel(chain.rows, ch)), Mark(out.hash, p.sig, sig))
      ensures OfChannel(chain.rows, ch) == PassNode(h, ch, true, Holding(old(OfChannel(chain.rows, ch)), p), sig).rows
    {
      var computed, prevHash := Compute(ch, p.payload);
      mismatch := p.hash != "" && computed != p.hash;
      OfChannelAppend(chain.rows, Row(ch, computed, prevHash, p.sig, sig), ch);
      chain.RecordDataHash(ch, computed, prevHash, p.sig, sig);
      out := Packet(p.payload, computed, sig);
    }

    /** ForwardData up to PushData: the packet keeps the hash it came with. An empty payload marks the
        end of a flow and leaves nothing to write. */
    method PassData(ch: string, p: Packet, sig: string) returns (out: Packet, mismatch: bool, todo: Option<Mark>)
      ensures out == p.(sig := sig)
      ensures mismatch <==> p.hash != "" && p.hash != h(p.payload + LastHash(OfChannel(chain.rows, ch)))
      ensures todo == if p.payload == "" then None
                      else Some(Mark(h(p.payload + LastHash(OfChannel(chain.rows, ch))), p.sig, sig))
      ensures todo == PassNode(h, ch, false, Holding(OfChannel(chain.rows, ch), p), sig).data
    {
      var computed, prevHash := Compute(ch, p.payload);
      mismatch := p.hash != "" && computed != p.hash;
      out := p.(sig := sig);
      todo := if p.payload == "" then None else Some(Mark(computed, p.sig, sig));
    }

    /** ForwardData after PushData: the previous hash is read again. */
    method WriteData(ch: string, m: Mark)
      modifies chain
      ensures OfChannel(chain.rows, ch) == Written(ch, old(OfChannel(chain.rows, ch)), m)
    {
      var prevHash := chain.GetLastDataHash(ch);
      OfChannelAppend(chain.rows, Row(ch, m.hash, prevHash, m.prevSig, m.sig), ch);
      chain.RecordDataHash(ch, m.hash, prevHash, m.prevSig, m.sig);
    }

    /** SendAck, or ForwardData of an ACK after PushData. */
    method WriteAck(ch: string, m: Mark)
      modifies chain
      ensures OfChannel(chain.rows, ch) == AckWritten(ch, old(OfChannel(chain.rows, ch)), m)
    {
      OfChannelAppend(chain.rows, AckRow(ch, m.prevSig, m.sig), ch);
      chain.RecordAck(ch, m.prevSig, m.sig);
    }
  }

  // ------------------------------------------------------------------------------------------
  // The steps of the network
  // ------------------------------------------------------------------------------------------

  datatype Step =
    | Send(payload: string, sig: string)   // the sender's connectorRecordBusinessData, then the stream
    | Pass(at: nat, sig: string)           // a kernel's StreamData, or ForwardData up to PushData
    | Write(at: nat)                       // ForwardData after PushData
    | TakeData(sig: string)                // the receiver's connectorReceiveBusinessData and HandleAck
    | PassAck(at: nat, sig: string)        // SendAck at the last kernel, ForwardData of an ACK elsewhere
    | WriteAck(at: nat)
    | TakeAck(sig: string)                 // the sender's recordAckFromKernel

  predicate IsKernel(net: Net, j: nat) {
    1 <= j < |net.nodes| - 1
  }

  predicate Enabled(net: Net, s: Step) {
    && |net.nodes| >= 3
    && (!s.Write? && !s.WriteAck? ==> s.sig !in net.used)
    && match s
       case Send(_, _) => true
       case Pass(j, _) => IsKernel(net, j) && net.nodes[j].inbox != [] && net.nodes[j].data == None
       case Write(j) => IsKernel(net, j) && net.nodes[j].data.Some?
       case TakeData(_) => net.nodes[|net.nodes| - 1].inbox != []
       case PassAck(j, _) => IsKernel(net, j) && net.nodes[j].acks != [] && net.nodes[j].ack == None
       case WriteAck(j) => IsKernel(net, j) && net.nodes[j].ack.Some?
       case TakeAck(_) => net.nodes[0].acks != []
  }

  function Deliver(nodes: seq<Node>, j: nat, p: Packet): seq<Node>
    requires j < |nodes|
  {
    nodes[j := nodes[j].(inbox := nodes[j].inbox + [p])]
  }

  function DeliverAck(nodes: seq<Node>, j: nat, sig: string): seq<Node>
    requires j < |nodes|
  {
    nodes[j := nodes[j].(acks := nodes[j].acks + [sig])]
  }

  function Sign(net: Net, sig: string): Net {
    net.(used := net.used + {sig})
  }

  function OnSend(h: string -> string, net: Net, payload: string, sig: string): Net
    requires Enabled(net, Send(payload, sig))
  {
    var a := net.nodes[0];
    var hash := h(payload + LastHash(a.rows));
    var a' := a.(rows := Written(net.ch, a.rows, Mark(hash, LastSig(a.rows), sig)), handled := a.handled + [payload]);
    Sign(net.(nodes := Deliver(net.nodes[0 := a'], 1, Packet(payload, hash, sig)), sent := net.sent + [payload]), sig)
  }

  function PassMark(h: string -> string, k: Node, sig: string): Mark
    requires k.inbox != []
  {
    Mark(h(k.inbox[0].payload + LastHash(k.rows)), k.inbox[0].sig, sig)
  }

  /** A kernel after passing on a packet; the first one has written its row already. */
  function PassNode(h: string -> string, ch: string, first: bool, k: Node, sig: string): Node
    requires k.inbox != []
  {
    var p, m := k.inbox[0], PassMark(h, k, sig);
    var k' := k.(inbox := k.inbox[1..], handled := k.handled + [p.payload]);
    if first then k'.(rows := Written(ch, k.rows, m))
    else if p.payload == "" then k'
    else k'.(data := Some(m))
  }

  function OnPass(h: string -> string, net: Net, j: nat, sig: string): Net
    requires Enabled(net, Pass(j, sig))
  {
    var k := net.nodes[j];
    var p, m := k.inbox[0], PassMark(h, k, sig);
    var out := Packet(p.payload, if j == 1 then m.hash else p.hash, sig);
    Sign(net.(nodes := Deliver(net.nodes[j := PassNode(h, net.ch, j == 1, k, sig)], j + 1, out),
              mismatches := net.mismatches + if Mismatch(p, m.hash) then 1 else 0), sig)
  }

  function OnWrite(net: Net, j: nat): Net
    requires Enabled(net, Write(j))
  {
    var k := net.nodes[j];
    net.(nodes := net.nodes[j := k.(rows := Written(net.ch, k.rows, k.data.value), data := None)])
  }

  /** The receiver after taking a packet with a hash: it writes a data row and an ACK row. */
  function TakeNode(ch: string, x: Node, sig: string): Node
    requires x.inbox != []
  {
    var p := x.inbox[0];
    var data := Written(ch, x.rows, Mark(p.hash, p.sig, sig));
    x.(inbox := x.inbox[1..], handled := x.handled + [p.payload],
       rows := if HasAck(data, p.sig) then data else data + [AckRow(ch, p.sig, sig)])
  }

  /** Packets without a hash are skipped. */
  function OnTakeData(net: Net, sig: string): Net
    requires Enabled(net, TakeData(sig))
  {
    var last := |net.nodes| - 1;
    var x := net.nodes[last];
    if x.inbox[0].hash == "" then
      net.(nodes := net.nodes[last := x.(inbox := x.inbox[1..], handled := x.handled + [x.inbox[0].payload])])
    else
      Sign(net.(nodes := DeliverAck(net.nodes[last := TakeNode(net.ch, x, sig)], last - 1, sig)), sig)
  }

  /** A kernel after passing on an ACK; the last one has written its row already. */
  function PassAckNode(ch: string, last: bool, k: Node, sig: string): Node
    requires k.acks != []
  {
    var m := Mark("", k.acks[0], sig);
    var k' := k.(acks := k.acks[1..]);
    if last then k'.(rows := AckWritten(ch, k.rows, m)) else k'.(ack := Some(m))
  }

  function OnPassAck(net: Net, j: nat, sig: string): Net
    requires Enabled(net, PassAck(j, sig))
  {
    var k := PassAckNode(net.ch, j == |net.nodes| - 2, net.nodes[j], sig);
    Sign(net.(nodes := DeliverAck(net.nodes[j := k], j - 1, sig)), sig)
  }

  /** The connectors' parts of these steps are the operations of their stores. */
  lemma ConnectorStepsAreStoreSteps(h: string -> string, hex: string -> string, ch: string, x: Node,
                                    payload: string, sig: string)
    ensures Written(ch, x.rows, Mark(h(payload + LastHash(x.rows)), LastSig(x.rows), sig))
         == x.rows + NewRow(h, hex, x.rows, Record(ch, payload, sig))
    ensures x.inbox != [] ==>
      var p := x.inbox[0];
      var d := x.rows + NewRow(h, hex, x.rows, Receive(ch, p.hash, p.sig, sig));
      TakeNode(ch, x, sig).rows == d + NewRow(h, hex, d, Ack(ch, p.sig, sig))
    ensures x.acks != [] ==>
      (if HasAck(x.rows, x.acks[0]) then x.rows else x.rows + [AckRow(ch, x.acks[0], sig)])
        == x.rows + NewRow(h, hex, x.rows, Ack(ch, x.acks[0], sig))
  {
  }

  function OnWriteAck(net: Net, j: nat): Net
    requires Enabled(net, WriteAck(j))
  {
    var k := net.nodes[j];
    net.(nodes := net.nodes[j := k.(rows := AckWritten(net.ch, k.rows, k.ack.value), ack := None)])
  }

  function OnTakeAck(net: Net, sig: string): Net
    requires Enabled(net, TakeAck(sig))
  {
    var a := net.nodes[0];
    var rows := if HasAck(a.rows, a.acks[0]) then a.rows else a.rows + [AckRow(net.ch, a.acks[0], sig)];
    Sign(net.(nodes := net.nodes[0 := a.(rows := rows, acks := a.acks[1..])]), sig)
  }

  function NetNext(h: string -> string, net: Net, s: Step): Net {
    if !Enabled(net, s) then net
    else match s
      case Send(payload, sig) => OnSend(h, net, payload, sig)
      case Pass(j, sig) => OnPass(h, net, j, sig)
      case Write(j) => OnWrite(net, j)
      case TakeData(sig) => OnTakeData(net, sig)
      case PassAck(j, sig) => OnPassAck(net, j, sig)
      case WriteAck(j) => OnWriteAck(net, j)
      case TakeAck(sig) => OnTakeAck(net, sig)
  }

  function NetRun(h: string -> string, net: Net, steps: seq<Step>): Net {
    if steps == [] then net else NetNext(h, NetRun(h, net, steps[..|steps| - 1]), steps[|steps| - 1])
  }

  const IDLE := Node([], [], None, [], None, [])

  /** n kernels between the two connectors, all chains empty. */
  function Start(ch: string, n: nat): Net
    requires n >= 1
  {
    Net(ch, seq(n + 2, _ => IDLE), [], {}, 0)
  }
}
