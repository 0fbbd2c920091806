/** What the invariant says about the rows themselves. */
module PathChainTheorems {
  import opened Wrappers
  import opened BusinessChain
  import opened ChainHistory
  import opened PathChain
  import opened PathChainProofs

  lemma EmptyViewsOk(h: string -> string, vs: seq<View>)
    requires |vs| >= 3 && forall j | 0 <= j < |vs| :: vs[j] == View([], [], [], [])
    ensures ViewsOk(h, vs, [], {})
  {
  }

  lemma StartRows(ch: string, n: nat)
    requires n >= 1
    ensures Shaped(Start(ch, n).nodes) && RowsOk(Start(ch, n).nodes)
  {
  }

  lemma StartInv(h: string -> string, ch: string, n: nat)
    requires n >= 1
    ensures Inv(h, Start(ch, n))
  {
    hide ViewsOk, Shaped, RowsOk;
    var vs := Views(Start(ch, n));
    assert forall j | 0 <= j < |vs| :: vs[j] == View([], [], [], []);
    EmptyViewsOk(h, vs);
    StartRows(ch, n);
  }

  lemma NextInv(h: string -> string, net: Net, s: Step)
    requires Inv(h, net) && "" !in NetNext(h, net, s).sent && forall x :: h(x) != ""
    ensures Inv(h, NetNext(h, net, s))
  {
    hide Inv;
    if Enabled(net, s) {
      match s
      case Send(payload, sig) =>
        assert NetNext(h, net, s).sent == net.sent + [payload];
        assert payload != "";
        SendInv(h, net, payload, sig);
      case Pass(j, sig) => PassInv(h, net, j, sig);
      case Write(j) => WriteInv(h, net, j);
      case TakeData(sig) => TakeInv(h, net, sig);
      case PassAck(j, sig) => PassAckInv(h, net, j, sig);
      case WriteAck(j) => WriteAckInv(h, net, j);
      case TakeAck(sig) => TakeAckInv(h, net, sig);
    }
  }

  lemma SentGrows(h: string -> string, net: Net, s: Step)
    ensures net.sent <= NetNext(h, net, s).sent
  {
  }

  lemma {:induction false} RunInv(h: string -> string, ch: string, n: nat, steps: seq<Step>)
    requires n >= 1 && (forall x :: h(x) != "") && "" !in NetRun(h, Start(ch, n), steps).sent
    ensures Inv(h, NetRun(h, Start(ch, n), steps))
  {
    hide Inv, NetNext, Start;
    if steps == [] {
      StartInv(h, ch, n);
    } else {
      var net := NetRun(h, Start(ch, n), steps[..|steps| - 1]);
      SentGrows(h, net, steps[|steps| - 1]);
      RunInv(h, ch, n, steps[..|steps| - 1]);
      NextInv(h, net, steps[|steps| - 1]);
    }
  }

  // ------------------------------------------------------------------------------------------
  // The rows
  // ------------------------------------------------------------------------------------------

  /** No data packet is on its way and no data row is still to be written. */
  predicate DataQuiet(net: Net) {
    forall j | 0 <= j < |net.nodes| :: net.nodes[j].inbox == [] && net.nodes[j].data == None
  }

  predicate AckQuiet(net: Net) {
    forall j | 0 <= j < |net.nodes| :: net.nodes[j].acks == [] && net.nodes[j].ack == None
  }

  lemma {:induction false} MarksAreDataRows(c: seq<Row>)
    ensures |Marks(c, false)| == |DataRows(c)| == |Hashes(c)|
    ensures forall k | 0 <= k < |Hashes(c)| :: Marks(c, false)[k].hash == Hashes(c)[k]
  {
    if c != [] {
      var n := |c| - 1;
      MarksAreDataRows(c[..n]);
      HashesGrow(c[..n], c[n]);
      assert c == c[..n] + [c[n]];
      MarksGrow(c[..n], c[n], false);
    }
  }

  lemma {:induction false} HashChainAt(h: string -> string, ds: seq<string>, k: nat)
    requires k < |ds|
    ensures |HashChain(h, ds)| == |ds| && HashChain(h, ds)[k] == Tail(h, ds[..k + 1])
  {
    var n := |ds| - 1;
    HashChainLast(h, ds);
    if k == n {
      assert ds[..k + 1] == ds;
    } else {
      HashChainAt(h, ds[..n], k);
      assert ds[..n][..k + 1] == ds[..k + 1];
    }
  }

  lemma RowHashes(h: string -> string, c: seq<Row>, rest: seq<Mark>, sent: seq<string>)
    requires HashesOk(h, Marks(c, false) + rest, sent)
    ensures |Hashes(c)| <= |sent| && Hashes(c) == HashChain(h, sent[..|Hashes(c)|])
  {
    MarksAreDataRows(c);
    var n, e := |Hashes(c)|, Marks(c, false) + rest;
    var ds := sent[..n];
    HashChainLast(h, ds);
    forall k | 0 <= k < n
      ensures Hashes(c)[k] == HashChain(h, ds)[k]
    {
      assert e[k] == Marks(c, false)[k];
      HashChainAt(h, ds, k);
      assert ds[..k + 1] == sent[..k + 1];
    }
  }

  lemma NodeFacts(h: string -> string, net: Net, j: nat)
    requires Inv(h, net) && j < |net.nodes|
    ensures HashesOk(h, Marks(net.nodes[j].rows, false) + Pending(net.nodes[j].data), net.sent)
    ensures Linked(net.nodes[j].rows)
  {
    hide HashesOk, Linked, Marks, LinksOk, AckLinksOk, Acknowledged, Shaped;
    assert NodeOk(h, Views(net)[j], net.sent, net.used);
  }

  /** All nodes rebuild the same chain. After every run, whatever the order of steps: no kernel ever
      computed a hash other than the one it received; every node's data hashes are a prefix of the fold
      of the payloads sent; and every chain passes VerifyChain. */
  lemma ChainsAgree(h: string -> string, ch: string, n: nat, steps: seq<Step>, j: nat)
    requires n >= 1 && (forall x :: h(x) != "") && "" !in NetRun(h, Start(ch, n), steps).sent && j < n + 2
    ensures var net := NetRun(h, Start(ch, n), steps);
      && net.mismatches == 0 && |net.nodes| == n + 2
      && var c := net.nodes[j].rows;
         Linked(c) && |Hashes(c)| <= |net.sent| && Hashes(c) == HashChain(h, net.sent[..|Hashes(c)|])
  {
    var net := NetRun(h, Start(ch, n), steps);
    RunInv(h, ch, n, steps);
    NodesStayPut(h, ch, n, steps);
    NodeFacts(h, net, j);
    hide Inv, NetRun, Start, HashesOk, Linked, Hashes;
    RowHashes(h, net.nodes[j].rows, Pending(net.nodes[j].data), net.sent);
  }

  /** The comparison is a real one: a kernel that passes a packet on counts a mismatch exactly when the
      packet carries a hash other than the one of its payload with the kernel's own last data hash. */
  lemma MismatchCountedExactly(h: string -> string, net: Net, j: nat, sig: string)
    requires Enabled(net, Pass(j, sig))
    ensures var p := net.nodes[j].inbox[0];
      NetNext(h, net, Pass(j, sig)).mismatches
        == net.mismatches + if p.hash != "" && p.hash != h(p.payload + LastHash(net.nodes[j].rows)) then 1 else 0
  {
    hide PassNode, LastHash;
  }

  /** In every run the packet a kernel is about to pass on is the next payload sent, with the hash over all
      payloads so far, which is also the hash of the payload with the kernel's own last data hash. */
  lemma ArrivingHashIsRecomputed(h: string -> string, ch: string, n: nat, steps: seq<Step>, j: nat, sig: string)
    requires n >= 1 && (forall x :: h(x) != "") && "" !in NetRun(h, Start(ch, n), steps).sent
    requires Enabled(NetRun(h, Start(ch, n), steps), Pass(j, sig))
    ensures var net := NetRun(h, Start(ch, n), steps);
      var p, m := net.nodes[j].inbox[0], |DataAt(net, j)|;
      && m < |net.sent| && p.payload == net.sent[m] && p.hash == Tail(h, net.sent[..m + 1])
      && p.hash == h(p.payload + LastHash(net.nodes[j].rows))
  {
    var net := NetRun(h, Start(ch, n), steps);
    RunInv(h, ch, n, steps);
    hide NetRun, Start, LastHash, Marks;
    ViewOfNode(net, j);
    NextPacket(h, Views(net), net.sent, net.used, j);
    hide ViewsOk, RowsOk, Shaped;
  }

  lemma {:induction false} NodesStayPut(h: string -> string, ch: string, n: nat, steps: seq<Step>)
    requires n >= 1
    ensures |NetRun(h, Start(ch, n), steps).nodes| == n + 2
  {
    if steps != [] {
      NodesStayPut(h, ch, n, steps[..|steps| - 1]);
      SameNodes(h, NetRun(h, Start(ch, n), steps[..|steps| - 1]), steps[|steps| - 1]);
    }
  }

  lemma SameNodes(h: string -> string, net: Net, s: Step)
    ensures |NetNext(h, net, s).nodes| == |net.nodes|
  {
    hide PassNode, TakeNode, PassAckNode, Written, AckWritten, HasAck;
  }

  lemma LinkLengths(h: string -> string, net: Net, j: nat)
    requires Inv(h, net) && j < |net.nodes| - 1
    ensures var vs := Views(net);
      && |vs| == |net.nodes| && |vs[0].data| == |net.sent|
      && DataLink(vs[j].data, vs[j + 1].inbox, vs[j + 1].data, net.sent)
      && AckLink(Source(vs, j), vs[j].ackBox, vs[j].acks)
      && Acknowledged(vs[|vs| - 1])
  {
    hide NodesOk, Shaped, RowsOk, DataLink, AckLink;
    assert LinkAt(Views(net), j, net.sent) && AckLinkAt(Views(net), j);
  }

  lemma {:induction false} QuietCounts(h: string -> string, net: Net, j: nat)
    requires Inv(h, net) && DataQuiet(net) && j < |net.nodes|
    ensures |Marks(net.nodes[j].rows, false)| == |net.sent|
  {
    if j == 0 {
      LinkLengths(h, net, 0);
    } else {
      QuietCounts(h, net, j - 1);
      LinkLengths(h, net, j - 1);
    }
    hide Inv, ViewsOk;
  }

  /** Once no data is under way, every node holds the sender's exact sequence. */
  lemma QuietChainsEqual(h: string -> string, ch: string, n: nat, steps: seq<Step>, j: nat)
    requires n >= 1 && (forall x :: h(x) != "") && "" !in NetRun(h, Start(ch, n), steps).sent && j < n + 2
    requires DataQuiet(NetRun(h, Start(ch, n), steps))
    ensures var net := NetRun(h, Start(ch, n), steps);
      |net.nodes| == n + 2 && Hashes(net.nodes[j].rows) == HashChain(h, net.sent)
  {
    var net := NetRun(h, Start(ch, n), steps);
    ChainsAgree(h, ch, n, steps, j);
    RunInv(h, ch, n, steps);
    hide NetRun, Start, Linked, Inv, DataQuiet;
    QuietCounts(h, net, j);
    MarksAreDataRows(net.nodes[j].rows);
    assert net.sent[..|net.sent|] == net.sent;
  }

  // ------------------------------------------------------------------------------------------
  // Signatures
  // ------------------------------------------------------------------------------------------

  predicate Chained(to: seq<Mark>, from: seq<Mark>) {
    forall k | 0 <= k < |to| && k < |from| :: to[k].prevSig == from[k].sig
  }

  function DataAt(net: Net, j: nat): seq<Mark>
    requires j < |net.nodes|
  {
    Marks(net.nodes[j].rows, false)
  }

  function AcksAt(net: Net, j: nat): seq<Mark>
    requires j < |net.nodes|
  {
    Marks(net.nodes[j].rows, true)
  }

  lemma PrefixesChained(to: seq<Mark>, to': seq<Mark>, from: seq<Mark>, from': seq<Mark>)
    requires |to'| <= |from'| && (forall k | 0 <= k < |to'| :: to'[k].prevSig == from'[k].sig)
    requires to <= to' && from <= from'
    ensures Chained(to, from)
  {
  }

  /** The rows written for one packet form one signature chain, from the sender over every kernel to
      the receiver and back: wherever both rows are written, the k-th data row of a node names the
      signature of the k-th data row of the node before it; the last kernel's k-th ACK row that of the
      receiver's k-th data row; every other ACK row that of the node after it. The sender's next data row
      continues its own last row. */
  lemma SignaturesChain(h: string -> string, ch: string, n: nat, steps: seq<Step>, j: nat)
    requires n >= 1 && (forall x :: h(x) != "") && "" !in NetRun(h, Start(ch, n), steps).sent && j <= n
    ensures var net := NetRun(h, Start(ch, n), steps);
      && |net.nodes| == n + 2
      && Chained(DataAt(net, j + 1), DataAt(net, j))
      && Chained(AcksAt(net, j), if j == n then DataAt(net, n + 1) else AcksAt(net, j + 1))
      && SelfLinked(net.nodes[0].rows)
  {
    hide NetRun, Start, Inv, Chained, SelfLinked, Marks;
    var net := NetRun(h, Start(ch, n), steps);
    RunInv(h, ch, n, steps);
    NodesStayPut(h, ch, n, steps);
    ChainedAt(h, net, j);
    SenderContinues(h, net);
  }

  lemma ChainedAt(h: string -> string, net: Net, j: nat)
    requires Inv(h, net) && j < |net.nodes| - 1
    ensures Chained(DataAt(net, j + 1), DataAt(net, j))
    ensures Chained(AcksAt(net, j), if j == |net.nodes| - 2 then DataAt(net, j + 1) else AcksAt(net, j + 1))
  {
    hide Inv, ViewsOk, Views, Marks, Chained;
    LinkLengths(h, net, j);
    ViewOfNode(net, j);
    ViewOfNode(net, j + 1);
    var v, w := Views(net)[j], Views(net)[j + 1];
    assert DataAt(net, j) <= v.data && DataAt(net, j + 1) <= w.data;
    assert AcksAt(net, j) <= v.acks && AcksAt(net, j + 1) <= w.acks;
    PrefixesChained(DataAt(net, j + 1), w.data, DataAt(net, j), v.data);
    if j == |net.nodes| - 2 {
      PrefixesChained(AcksAt(net, j), v.acks, DataAt(net, j + 1), w.data);
    } else {
      PrefixesChained(AcksAt(net, j), v.acks, AcksAt(net, j + 1), w.acks);
    }
  }

  lemma SenderContinues(h: string -> string, net: Net)
    requires Inv(h, net)
    ensures SelfLinked(net.nodes[0].rows)
  {
    hide ViewsOk, SelfLinked, Linked;
  }

  lemma AckCounts(h: string -> string, net: Net, j: nat)
    requires Inv(h, net) && DataQuiet(net) && AckQuiet(net) && j < |net.nodes| - 1
    ensures |AcksAt(net, j)| == if j == |net.nodes| - 2 then |DataAt(net, j + 1)| else |AcksAt(net, j + 1)|
  {
    hide Inv, Views, Marks;
    LinkLengths(h, net, j);
    ViewOfNode(net, j);
    ViewOfNode(net, j + 1);
  }

  lemma LastAckCounts(h: string -> string, net: Net)
    requires Inv(h, net) && DataQuiet(net) && AckQuiet(net)
    ensures |AcksAt(net, |net.nodes| - 1)| == |DataAt(net, |net.nodes| - 1)|
  {
    hide Views, ViewsOk, Shaped, RowsOk, Marks;
    assert |net.nodes| >= 3;
    hide Inv;
    LinkLengths(h, net, 0);
    ViewOfNode(net, |net.nodes| - 1);
  }

  lemma {:induction false} QuietAcks(h: string -> string, net: Net, j: nat)
    requires Inv(h, net) && DataQuiet(net) && AckQuiet(net) && j < |net.nodes|
    ensures |Marks(net.nodes[j].rows, true)| == |net.sent|
    decreases |net.nodes| - j
  {
    hide Inv, DataQuiet, AckQuiet, Marks;
    if j == |net.nodes| - 1 {
      QuietCounts(h, net, j);
      LastAckCounts(h, net);
    } else {
      QuietAcks(h, net, j + 1);
      QuietCounts(h, net, j + 1);
      AckCounts(h, net, j);
    }
  }

  /** Once nothing is under way, every packet has its row and its ACK row on every node: no ACK was
      lost or recorded twice. */
  lemma EveryPacketAcknowledged(h: string -> string, ch: string, n: nat, steps: seq<Step>, j: nat)
    requires n >= 1 && (forall x :: h(x) != "") && "" !in NetRun(h, Start(ch, n), steps).sent && j < n + 2
    requires DataQuiet(NetRun(h, Start(ch, n), steps)) && AckQuiet(NetRun(h, Start(ch, n), steps))
    ensures var net := NetRun(h, Start(ch, n), steps);
      |net.nodes| == n + 2 && |DataAt(net, j)| == |AcksAt(net, j)| == |net.sent|
  {
    var net := NetRun(h, Start(ch, n), steps);
    RunInv(h, ch, n, steps);
    NodesStayPut(h, ch, n, steps);
    hide NetRun, Start, Inv, DataQuiet, AckQuiet;
    QuietCounts(h, net, j);
    QuietAcks(h, net, j);
  }

  // ------------------------------------------------------------------------------------------
  // Empty payloads
  // ------------------------------------------------------------------------------------------

  function Payloads(box: seq<Packet>): seq<string> {
    seq(|box|, i requires 0 <= i < |box| => box[i].payload)
  }

  function CountFull(ds: seq<string>): nat {
    if ds == [] then 0 else CountFull(ds[..|ds| - 1]) + if ds[|ds| - 1] == "" then 0 else 1
  }

  lemma CountFullGrows(ds: seq<string>, d: string)
    ensures CountFull(ds + [d]) == CountFull(ds) + if d == "" then 0 else 1
  {
    assert (ds + [d])[..|ds|] == ds;
  }

  lemma {:induction false} CountFullExact(ds: seq<string>)
    ensures CountFull(ds) <= |ds|
    ensures CountFull(ds) == |ds| <==> "" !in ds
  {
    if ds != [] {
      CountFullExact(ds[..|ds| - 1]);
      assert ds == ds[..|ds| - 1] + [ds[|ds| - 1]];
    }
  }

  /** A node has a data row for each payload it handled; beyond the first kernel, for each non-empty
      one. */
  predicate Counted(k: Node, skips: bool) {
    && (k.data.Some? ==> k.data.value.hash != "")
    && |Marks(k.rows, false)| + |Pending(k.data)| == if skips then CountFull(k.handled) else |k.handled|
  }

  /** Node j of m, the receiver excepted. */
  predicate NodeCounted(m: nat, j: nat, k: Node) {
    j < m - 1 ==>
      && Counted(k, 2 <= j)
      && (j <= 1 ==> k.data == None)
  }

  /** Nothing is lost between a node and the next. */
  predicate Conserved(up: Node, down: Node) {
    up.handled == down.handled + Payloads(down.inbox)
  }

  predicate AllCounted(nodes: seq<Node>) {
    forall j | 0 <= j < |nodes| :: NodeCounted(|nodes|, j, nodes[j])
  }

  predicate ConservedAt(nodes: seq<Node>, j: int) {
    0 <= j < |nodes| - 1 ==> Conserved(nodes[j], nodes[j + 1])
  }

  ghost predicate AllConserved(nodes: seq<Node>) {
    forall j :: ConservedAt(nodes, j)
  }

  ghost predicate CountInv(net: Net) {
    && |net.nodes| >= 3 && net.nodes[0].handled == net.sent
    && AllCounted(net.nodes) && AllConserved(net.nodes)
  }

  lemma {:induction false} CountedChain(nodes: seq<Node>, j: nat)
    requires AllConserved(nodes) && j < |nodes| && forall i | 0 <= i < |nodes| :: nodes[i].inbox == []
    ensures nodes[j].handled == nodes[0].handled
  {
    if j > 0 {
      CountedChain(nodes, j - 1);
      assert ConservedAt(nodes, j - 1);
    }
  }

  /** A step changes the rows of node i, and boxes of i and the next. */
  ghost predicate OnlyAt(nodes: seq<Node>, nodes': seq<Node>, i: nat) {
    && |nodes'| == |nodes|
    && (forall j | 0 <= j < |nodes| && j != i :: nodes'[j].rows == nodes[j].rows && nodes'[j].data == nodes[j].data
          && nodes'[j].handled == nodes[j].handled)
    && (forall j | 0 <= j < |nodes| && j != i && j != i + 1 :: nodes'[j].inbox == nodes[j].inbox)
  }

  lemma CountStays(nodes: seq<Node>, nodes': seq<Node>, i: nat)
    requires AllCounted(nodes) && AllConserved(nodes) && OnlyAt(nodes, nodes', i) && i < |nodes|
    requires NodeCounted(|nodes|, i, nodes'[i]) && ConservedAt(nodes', i - 1) && ConservedAt(nodes', i)
    ensures AllCounted(nodes') && AllConserved(nodes')
  {
    hide Counted;
    forall j | 0 <= j < |nodes|
      ensures NodeCounted(|nodes|, j, nodes'[j])
    {
      if j != i {
        SameCounted(nodes[j], nodes'[j], 2 <= j);
      }
    }
    hide AllCounted;
    forall j
      ensures ConservedAt(nodes', j)
    {
      assert ConservedAt(nodes, j);
    }
  }

  lemma SameCounted(k: Node, l: Node, skips: bool)
    requires l.rows == k.rows && l.data == k.data && l.handled == k.handled
    ensures Counted(l, skips) == Counted(k, skips)
  {
  }

  lemma AckWrittenCounts(ch: string, c: seq<Row>, m: Mark)
    ensures Marks(AckWritten(ch, c, m), false) == Marks(c, false)
  {
    MarksGrow(c, AckRow(ch, m.prevSig, m.sig), false);
  }

  lemma PayloadsMove(box: seq<Packet>, p: Packet)
    ensures Payloads(box + [p]) == Payloads(box) + [p.payload]
    ensures box != [] ==> Payloads(box) == [box[0].payload] + Payloads(box[1..])
  {
  }

  lemma PassCounts(h: string -> string, ch: string, first: bool, k: Node, sig: string)
    requires k.inbox != [] && k.data == None && Counted(k, !first) && forall x :: h(x) != ""
    ensures Counted(PassNode(h, ch, first, k, sig), !first)
  {
    CountFullGrows(k.handled, k.inbox[0].payload);
    WrittenView(ch, k.rows, PassMark(h, k, sig));
    hide Written, Marks, CountFull;
  }

  lemma SendCounts(h: string -> string, net: Net, payload: string, sig: string)
    requires CountInv(net) && Enabled(net, Send(payload, sig)) && forall x :: h(x) != ""
    ensures CountInv(OnSend(h, net, payload, sig))
  {
    hide AllConserved, AllCounted, Marks, Written, Payloads;
    var net' := OnSend(h, net, payload, sig);
    var a, b := net.nodes[0], net.nodes[1];
    assert NodeCounted(|net.nodes|, 0, a) && ConservedAt(net.nodes, 0) by { ConservedHere(net, 0); }
    WrittenView(net.ch, a.rows, Mark(h(payload + LastHash(a.rows)), LastSig(a.rows), sig));
    PayloadsMove(b.inbox, Packet(payload, h(payload + LastHash(a.rows)), sig));
    assert NodeCounted(|net.nodes|, 0, net'.nodes[0]);
    assert ConservedAt(net'.nodes, 0);
    CountStays(net.nodes, net'.nodes, 0);
  }

  lemma ConservedHere(net: Net, j: nat)
    requires CountInv(net) && j < |net.nodes|
    ensures ConservedAt(net.nodes, j) && ConservedAt(net.nodes, j - 1) && NodeCounted(|net.nodes|, j, net.nodes[j])
  {
    hide NodeCounted, ConservedAt;
  }

  lemma PassCountInv(h: string -> string, net: Net, j: nat, sig: string)
    requires CountInv(net) && Enabled(net, Pass(j, sig)) && forall x :: h(x) != ""
    ensures CountInv(OnPass(h, net, j, sig))
  {
    hide AllConserved, AllCounted, Marks, Payloads, PassNode, Counted;
    var net' := OnPass(h, net, j, sig);
    var k, b := net.nodes[j], net.nodes[j + 1];
    ConservedHere(net, j);
    PassCounts(h, net.ch, j == 1, k, sig);
    PassMoves(h, net.ch, j == 1, k, sig);
    PayloadsMove(k.inbox, k.inbox[0]);
    var hash := if j == 1 then PassMark(h, k, sig).hash else k.inbox[0].hash;
    PayloadsMove(b.inbox, Packet(k.inbox[0].payload, hash, sig));
    var k' := net'.nodes[j];
    assert NodeCounted(|net.nodes|, j, k');
    assert ConservedAt(net'.nodes, j) && ConservedAt(net'.nodes, j - 1);
    CountStays(net.nodes, net'.nodes, j);
  }

  lemma PassMoves(h: string -> string, ch: string, first: bool, k: Node, sig: string)
    requires k.inbox != []
    ensures var k' := PassNode(h, ch, first, k, sig);
      k'.inbox == k.inbox[1..] && k'.handled == k.handled + [k.inbox[0].payload] && (first ==> k'.data == k.data)
  {
  }

  lemma TakeCounts(net: Net, sig: string)
    requires CountInv(net) && Enabled(net, TakeData(sig))
    ensures CountInv(OnTakeData(net, sig))
  {
    hide AllConserved, AllCounted, Marks, Payloads, Written, HasAck, Counted;
    var last, net' := |net.nodes| - 1, OnTakeData(net, sig);
    var x := net.nodes[last];
    ConservedHere(net, last);
    PayloadsMove(x.inbox, x.inbox[0]);
    assert ConservedAt(net'.nodes, last - 1);
    CountStays(net.nodes, net'.nodes, last);
  }

  /** A step that only writes rows at node j, or moves an ACK. */
  lemma WriteCounts(net: Net, net': Net, j: nat)
    requires CountInv(net) && j < |net.nodes| && OnlyAt(net.nodes, net'.nodes, j) && net'.sent == net.sent
    requires forall i | 0 <= i < |net.nodes| :: net'.nodes[i].inbox == net.nodes[i].inbox
    requires net'.nodes[j].handled == net.nodes[j].handled
    requires var k, l := net.nodes[j], net'.nodes[j];
      && |Marks(l.rows, false)| + |Pending(l.data)| == |Marks(k.rows, false)| + |Pending(k.data)|
      && (l.data == k.data || l.data == None)
    ensures CountInv(net')
  {
    hide AllConserved, AllCounted, Marks, Payloads;
    ConservedHere(net, j);
    assert NodeCounted(|net.nodes|, j, net'.nodes[j]);
    assert ConservedAt(net'.nodes, j) && ConservedAt(net'.nodes, j - 1);
    CountStays(net.nodes, net'.nodes, j);
  }

  lemma PassAckCounts(net: Net, j: nat, sig: string)
    requires CountInv(net) && Enabled(net, PassAck(j, sig))
    ensures CountInv(OnPassAck(net, j, sig))
  {
    hide CountInv, AckWritten, Marks;
    AckWrittenCounts(net.ch, net.nodes[j].rows, Mark("", net.nodes[j].acks[0], sig));
    assert |net.nodes| >= 3;
    WriteCounts(net, OnPassAck(net, j, sig), j);
  }

  lemma TakeAckCounts(net: Net, sig: string)
    requires CountInv(net) && Enabled(net, TakeAck(sig))
    ensures CountInv(OnTakeAck(net, sig))
  {
    hide CountInv, HasAck, Marks;
    MarksGrow(net.nodes[0].rows, AckRow(net.ch, net.nodes[0].acks[0], sig), false);
    WriteCounts(net, OnTakeAck(net, sig), 0);
  }

  lemma WriteRowCounts(net: Net, j: nat)
    requires CountInv(net) && Enabled(net, Write(j))
    ensures CountInv(OnWrite(net, j))
  {
    hide CountInv, Written, Marks;
    ConservedHere(net, j);
    WrittenView(net.ch, net.nodes[j].rows, net.nodes[j].data.value);
    WriteCounts(net, OnWrite(net, j), j);
  }

  lemma WriteAckCounts(net: Net, j: nat)
    requires CountInv(net) && Enabled(net, WriteAck(j))
    ensures CountInv(OnWriteAck(net, j))
  {
    hide CountInv, AckWritten, Marks;
    AckWrittenCounts(net.ch, net.nodes[j].rows, net.nodes[j].ack.value);
    WriteCounts(net, OnWriteAck(net, j), j);
  }

  lemma NextCounts(h: string -> string, net: Net, s: Step)
    requires CountInv(net) && forall x :: h(x) != ""
    ensures CountInv(NetNext(h, net, s))
  {
    hide CountInv;
    if Enabled(net, s) {
      match s
      case Send(payload, sig) => SendCounts(h, net, payload, sig);
      case Pass(j, sig) => PassCountInv(h, net, j, sig);
      case Write(j) => WriteRowCounts(net, j);
      case TakeData(sig) => TakeCounts(net, sig);
      case PassAck(j, sig) => PassAckCounts(net, j, sig);
      case WriteAck(j) => WriteAckCounts(net, j);
      case TakeAck(sig) => TakeAckCounts(net, sig);
    }
  }

  lemma {:induction false} RunCounts(h: string -> string, ch: string, n: nat, steps: seq<Step>)
    requires n >= 1 && forall x :: h(x) != ""
    ensures CountInv(NetRun(h, Start(ch, n), steps))
  {
    if steps == [] {
      var nodes := Start(ch, n).nodes;
      assert AllCounted(nodes) && AllConserved(nodes);
    } else {
      hide CountInv, NetNext, Start;
      RunCounts(h, ch, n, steps[..|steps| - 1]);
      NextCounts(h, NetRun(h, Start(ch, n), steps[..|steps| - 1]), steps[|steps| - 1]);
    }
  }

  lemma QuietNodeCount(net: Net, j: nat)
    requires CountInv(net) && DataQuiet(net) && 2 <= j < |net.nodes| - 1
    ensures |DataAt(net, j)| == CountFull(net.sent)
  {
    ConservedHere(net, j);
    CountedChain(net.nodes, j);
    hide CountInv, Marks;
  }

  /** Kernels beyond the first take an empty payload for the end of a flow and write nothing. Once no
      data is under way such a kernel has one row per non-empty payload, so it holds the sequence of
      hashes that was sent exactly when no payload was empty. */
  lemma InStepExactlyWithoutEmptyPayloads(h: string -> string, ch: string, n: nat, steps: seq<Step>, j: nat)
    requires n >= 1 && (forall x :: h(x) != "") && 2 <= j <= n && DataQuiet(NetRun(h, Start(ch, n), steps))
    ensures var net := NetRun(h, Start(ch, n), steps);
      && |net.nodes| == n + 2 && |DataAt(net, j)| == CountFull(net.sent)
      && (Hashes(net.nodes[j].rows) == HashChain(h, net.sent) <==> "" !in net.sent)
  {
    hide NetRun, Start, CountInv, DataQuiet, CountFull;
    var net := NetRun(h, Start(ch, n), steps);
    RunCounts(h, ch, n, steps);
    NodesStayPut(h, ch, n, steps);
    QuietNodeCount(net, j);
    MarksAreDataRows(net.nodes[j].rows);
    HashChainLast(h, net.sent);
    CountFullExact(net.sent);
    if "" !in net.sent {
      QuietChainsEqual(h, ch, n, steps, j);
    }
  }

  /** Payloads are handled in the order they were sent, at every node, none lost and none repeated. */
  lemma PayloadsPassInOrder(h: string -> string, ch: string, n: nat, steps: seq<Step>, j: nat)
    requires n >= 1 && (forall x :: h(x) != "") && j < n + 2
    ensures var net := NetRun(h, Start(ch, n), steps);
      && |net.nodes| == n + 2 && net.nodes[j].handled <= net.sent
      && (DataQuiet(net) ==> net.nodes[j].handled == net.sent)
  {
    hide NetRun, Start, AllCounted, Conserved;
    var net := NetRun(h, Start(ch, n), steps);
    RunCounts(h, ch, n, steps);
    NodesStayPut(h, ch, n, steps);
    HandledInOrder(net.nodes, j);
    if DataQuiet(net) {
      CountedChain(net.nodes, j);
    }
  }

  lemma {:induction false} HandledInOrder(nodes: seq<Node>, j: nat)
    requires AllConserved(nodes) && j < |nodes|
    ensures nodes[j].handled <= nodes[0].handled
  {
    if j > 0 {
      HandledInOrder(nodes, j - 1);
      assert ConservedAt(nodes, j - 1);
    }
  }
}
