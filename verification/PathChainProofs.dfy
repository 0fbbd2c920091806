/** Every interleaving of the network's steps keeps all chains in step and all signatures linked. The
    proof looks at each node through a view in which a row counts as soon as it is signed; writing it
    later does not change the view. */
module PathChainProofs {
  import opened Wrappers
  import opened BusinessChain
  import opened ChainHistory
  import opened PathChain

  // ------------------------------------------------------------------------------------------
  // The view of a node
  // ------------------------------------------------------------------------------------------

  /** The data rows, or the ACK rows, of a chain. */
  function Marks(c: seq<Row>, acks: bool): seq<Mark> {
    if c == [] then []
    else
      var before, r := Marks(c[..|c| - 1], acks), c[|c| - 1];
      if IsAck(r) == acks then before + [Mark(r.dataHash, r.prevSig, r.sig)] else before
  }

  function Pending(m: Option<Mark>): seq<Mark> {
    if m.Some? then [m.value] else []
  }

  datatype View = View(data: seq<Mark>, acks: seq<Mark>, inbox: seq<Packet>, ackBox: seq<string>)

  function ViewOf(k: Node): View {
    View(Marks(k.rows, false) + Pending(k.data), Marks(k.rows, true) + Pending(k.ack), k.inbox, k.acks)
  }

  function Views(net: Net): seq<View> {
    seq(|net.nodes|, i requires 0 <= i < |net.nodes| => ViewOf(net.nodes[i]))
  }

  lemma MarksGrow(c: seq<Row>, r: Row, acks: bool)
    ensures Marks(c + [r], acks)
         == Marks(c, acks) + if IsAck(r) == acks then [Mark(r.dataHash, r.prevSig, r.sig)] else []
  {
    assert (c + [r])[..|c|] == c;
  }

  function HashOf(e: seq<Mark>): string {
    if e == [] then "" else e[|e| - 1].hash
  }

  lemma {:induction false} LastHashOfMarks(c: seq<Row>)
    ensures LastHash(c) == HashOf(Marks(c, false))
  {
    if c != [] {
      LastHashOfMarks(c[..|c| - 1]);
    }
  }

  predicate Answers(f: seq<Mark>, prevSig: string) {
    exists k :: 0 <= k < |f| && f[k].prevSig == prevSig
  }

  lemma {:induction false} AckIsMarked(c: seq<Row>, i: nat)
    requires i < |c| && IsAck(c[i])
    ensures Answers(Marks(c, true), c[i].prevSig)
  {
    var n := |c| - 1;
    if i == n {
      assert Marks(c, true)[|Marks(c[..n], true)|].prevSig == c[i].prevSig;
    } else {
      AckIsMarked(c[..n], i);
      var k :| 0 <= k < |Marks(c[..n], true)| && Marks(c[..n], true)[k].prevSig == c[i].prevSig;
      assert Marks(c, true)[k] == Marks(c[..n], true)[k];
    }
  }

  lemma NoAckNoMark(c: seq<Row>, prevSig: string)
    requires !Answers(Marks(c, true), prevSig)
    ensures !HasAck(c, prevSig) && !HasAck(First(c), prevSig)
  {
    forall i | 0 <= i < |c| && IsAck(c[i])
      ensures c[i].prevSig != prevSig
    {
      AckIsMarked(c, i);
    }
    assert forall i | 0 <= i < |First(c)| :: First(c)[i] == c[i];
  }

  /** Writing a row adds it to the view of the rows and to nothing else. */
  lemma WrittenView(ch: string, c: seq<Row>, m: Mark)
    requires m.hash != ""
    ensures Marks(Written(ch, c, m), false) == Marks(c, false) + [m]
    ensures Marks(Written(ch, c, m), true) == Marks(c, true)
  {
    var r := Row(ch, m.hash, LastHash(c), m.prevSig, m.sig);
    MarksGrow(c, r, false);
    MarksGrow(c, r, true);
  }

  lemma AckWrittenView(ch: string, c: seq<Row>, m: Mark)
    requires m.hash == "" && !Answers(Marks(c, true), m.prevSig)
    ensures AckWritten(ch, c, m) == c + [AckRow(ch, m.prevSig, m.sig)]
    ensures Marks(AckWritten(ch, c, m), false) == Marks(c, false)
    ensures Marks(AckWritten(ch, c, m), true) == Marks(c, true) + [m]
  {
    NoAckNoMark(c, m.prevSig);
    MarksGrow(c, AckRow(ch, m.prevSig, m.sig), false);
    MarksGrow(c, AckRow(ch, m.prevSig, m.sig), true);
  }

  // ------------------------------------------------------------------------------------------
  // The invariant on views
  // ------------------------------------------------------------------------------------------

  /** What node `up` has signed is what node `down` has signed plus what is on its way there. */
  ghost predicate DataLink(up: seq<Mark>, inbox: seq<Packet>, down: seq<Mark>, sent: seq<string>) {
    && |up| == |down| + |inbox| <= |sent|
    && (forall k | 0 <= k < |down| :: down[k].prevSig == up[k].sig)
    && (forall k | 0 <= k < |inbox| ::
          inbox[k] == Packet(sent[|down| + k], up[|down| + k].hash, up[|down| + k].sig))
  }

  ghost predicate AckLink(from: seq<Mark>, box: seq<string>, to: seq<Mark>) {
    && |from| == |to| + |box|
    && (forall k | 0 <= k < |to| :: to[k].prevSig == from[k].sig)
    && (forall k | 0 <= k < |box| :: box[k] == from[|to| + k].sig)
  }

  ghost predicate HashesOk(h: string -> string, e: seq<Mark>, sent: seq<string>) {
    |e| <= |sent| && forall k | 0 <= k < |e| :: e[k].hash == Tail(h, sent[..k + 1])
  }

  ghost predicate Fresh(e: seq<Mark>, used: set<string>) {
    && (forall k | 0 <= k < |e| :: e[k].sig in used)
    && (forall k, l | 0 <= k < l < |e| :: e[k].sig != e[l].sig)
  }

  ghost predicate NodeOk(h: string -> string, v: View, sent: seq<string>, used: set<string>) {
    HashesOk(h, v.data, sent) && Fresh(v.data, used) && Fresh(v.acks, used)
  }

  ghost predicate NodesOk(h: string -> string, vs: seq<View>, sent: seq<string>, used: set<string>) {
    forall j | 0 <= j < |vs| :: NodeOk(h, vs[j], sent, used)
  }

  /** Between node j and node j + 1. */
  ghost predicate LinkAt(vs: seq<View>, j: int, sent: seq<string>) {
    0 <= j < |vs| - 1 ==> DataLink(vs[j].data, vs[j + 1].inbox, vs[j + 1].data, sent)
  }

  ghost predicate LinksOk(vs: seq<View>, sent: seq<string>) {
    forall j :: LinkAt(vs, j, sent)
  }

  ghost predicate AckLinkAt(vs: seq<View>, j: int) {
    0 <= j < |vs| - 1 ==> AckLink(Source(vs, j), vs[j].ackBox, vs[j].acks)
  }

  ghost predicate AckLinksOk(vs: seq<View>) {
    forall j :: AckLinkAt(vs, j)
  }

  /** Where node j's ACKs come from: the receiver's data rows for the last kernel, else the next node. */
  function Source(vs: seq<View>, j: nat): seq<Mark>
    requires j + 1 < |vs|
  {
    if j == |vs| - 2 then vs[j + 1].data else vs[j + 1].acks
  }

  /** The receiver acknowledges each packet with the signature it recorded it with. */
  ghost predicate Acknowledged(v: View) {
    |v.acks| == |v.data| && forall k | 0 <= k < |v.acks| :: v.acks[k] == Mark("", v.data[k].prevSig, v.data[k].sig)
  }

  ghost predicate ViewsOk(h: string -> string, vs: seq<View>, sent: seq<string>, used: set<string>) {
    && |vs| >= 3 && |vs[0].data| == |sent|
    && NodesOk(h, vs, sent, used) && LinksOk(vs, sent) && AckLinksOk(vs) && Acknowledged(vs[|vs| - 1])
  }

  /** A step that signs at node j touches the views of j and its neighbours only. */
  lemma NodesStay(h: string -> string, vs: seq<View>, ws: seq<View>, sent: seq<string>, d: seq<string>,
                  used: set<string>, sig: string, j: nat)
    requires NodesOk(h, vs, sent, used) && |ws| == |vs| && j < |vs|
    requires forall i | 0 <= i < |vs| && i != j :: ws[i].data == vs[i].data && ws[i].acks == vs[i].acks
    requires NodeOk(h, ws[j], sent + d, used + {sig})
    ensures NodesOk(h, ws, sent + d, used + {sig})
  {
    forall i | 0 <= i < |ws|
      ensures NodeOk(h, ws[i], sent + d, used + {sig})
    {
      if i != j {
        NodeOkLater(h, vs[i], sent, used, d, sig);
        assert HashesOk(h, ws[i].data, sent + d);
      }
    }
  }

  ghost predicate DataStays(vs: seq<View>, ws: seq<View>, j: int) {
    && |ws| == |vs|
    && (forall i | 0 <= i < |vs| && i != j :: ws[i].data == vs[i].data)
    && (forall i | 0 <= i < |vs| && i != j && i != j + 1 :: ws[i].inbox == vs[i].inbox)
  }

  ghost predicate AcksStay(vs: seq<View>, ws: seq<View>, j: int) {
    && |ws| == |vs|
    && (forall i | 0 <= i < |vs| && i != j :: ws[i].acks == vs[i].acks)
    && (forall i | 0 <= i < |vs| && i != j && i != j - 1 :: ws[i].ackBox == vs[i].ackBox)
    && (|vs| >= 1 && j != |vs| - 1 ==> ws[|vs| - 1].data == vs[|vs| - 1].data)
  }

  lemma LinksStay(vs: seq<View>, ws: seq<View>, sent: seq<string>, j: int)
    requires LinksOk(vs, sent) && DataStays(vs, ws, j)
    requires LinkAt(ws, j - 1, sent) && LinkAt(ws, j, sent)
    ensures LinksOk(ws, sent)
  {
    hide DataLink;
    forall i
      ensures LinkAt(ws, i, sent)
    {
      assert LinkAt(vs, i, sent);
    }
  }

  lemma LinksLater(vs: seq<View>, sent: seq<string>, d: string)
    requires LinksOk(vs, sent)
    ensures LinksOk(vs, sent + [d])
  {
    forall i
      ensures LinkAt(vs, i, sent + [d])
    {
      assert LinkAt(vs, i, sent);
      if 0 <= i < |vs| - 1 {
        LinkSent(vs[i].data, vs[i + 1].inbox, vs[i + 1].data, sent, d);
      }
    }
  }

  lemma AckLinksStay(vs: seq<View>, ws: seq<View>, j: int)
    requires AckLinksOk(vs) && AcksStay(vs, ws, j)
    requires AckLinkAt(ws, j - 1) && AckLinkAt(ws, j)
    ensures AckLinksOk(ws)
  {
    hide AckLink;
    forall i
      ensures AckLinkAt(ws, i)
    {
      assert AckLinkAt(vs, i);
      if 0 <= i < |vs| - 1 && i != j && i != j - 1 {
        assert Source(ws, i) == Source(vs, i);
      }
    }
  }

  lemma LinkPush(up: seq<Mark>, inbox: seq<Packet>, down: seq<Mark>, sent: seq<string>, m: Mark)
    requires DataLink(up, inbox, down, sent) && |up| < |sent|
    ensures DataLink(up + [m], inbox + [Packet(sent[|up|], m.hash, m.sig)], down, sent)
  {
  }

  lemma LinkPop(up: seq<Mark>, inbox: seq<Packet>, down: seq<Mark>, sent: seq<string>, m: Mark)
    requires DataLink(up, inbox, down, sent) && inbox != [] && m.prevSig == inbox[0].sig
    ensures DataLink(up, inbox[1..], down + [m], sent)
  {
  }

  lemma LinkSent(up: seq<Mark>, inbox: seq<Packet>, down: seq<Mark>, sent: seq<string>, d: string)
    requires DataLink(up, inbox, down, sent)
    ensures DataLink(up, inbox, down, sent + [d])
  {
  }

  lemma AckPush(from: seq<Mark>, box: seq<string>, to: seq<Mark>, m: Mark)
    requires AckLink(from, box, to)
    ensures AckLink(from + [m], box + [m.sig], to)
  {
  }

  lemma AckPop(from: seq<Mark>, box: seq<string>, to: seq<Mark>, m: Mark)
    requires AckLink(from, box, to) && box != [] && m.prevSig == box[0]
    ensures AckLink(from, box[1..], to + [m])
  {
  }

  lemma FreshGrows(e: seq<Mark>, used: set<string>, m: Mark)
    requires Fresh(e, used) && m.sig !in used
    ensures Fresh(e + [m], used + {m.sig})
  {
  }

  lemma HashesGrowOk(h: string -> string, e: seq<Mark>, sent: seq<string>, m: Mark)
    requires HashesOk(h, e, sent) && |e| < |sent| && m.hash == Tail(h, sent[..|e| + 1])
    ensures HashesOk(h, e + [m], sent)
  {
  }

  lemma NodeOkLater(h: string -> string, v: View, sent: seq<string>, used: set<string>, d: seq<string>, sig: string)
    requires NodeOk(h, v, sent, used)
    ensures NodeOk(h, v, sent + d, used + {sig})
  {
    forall k | 0 <= k < |v.data|
      ensures v.data[k].hash == Tail(h, (sent + d)[..k + 1])
    {
      assert (sent + d)[..k + 1] == sent[..k + 1];
    }
  }

  lemma NoDoubleAck(from: seq<Mark>, box: seq<string>, to: seq<Mark>, used: set<string>)
    requires AckLink(from, box, to) && Fresh(from, used) && box != []
    ensures !Answers(to, box[0])
  {
  }

  // ------------------------------------------------------------------------------------------
  // The steps on views
  // ------------------------------------------------------------------------------------------

  function AddData(v: View, m: Mark): View {
    v.(data := v.data + [m])
  }

  function AddAck(v: View, m: Mark): View {
    v.(acks := v.acks + [m])
  }

  function Gets(vs: seq<View>, j: nat, p: Packet): seq<View>
    requires j < |vs|
  {
    vs[j := vs[j].(inbox := vs[j].inbox + [p])]
  }

  function GetsAck(vs: seq<View>, j: nat, sig: string): seq<View>
    requires j < |vs|
  {
    vs[j := vs[j].(ackBox := vs[j].ackBox + [sig])]
  }

  function ViewsAfterSend(vs: seq<View>, m: Mark, payload: string): seq<View>
    requires |vs| >= 3
  {
    Gets(vs[0 := AddData(vs[0], m)], 1, Packet(payload, m.hash, m.sig))
  }

  function ViewsAfterPass(vs: seq<View>, j: nat, m: Mark): seq<View>
    requires j + 1 < |vs| && vs[j].inbox != []
  {
    var v := vs[j];
    Gets(vs[j := AddData(v, m).(inbox := v.inbox[1..])], j + 1, Packet(v.inbox[0].payload, m.hash, m.sig))
  }

  function ViewsAfterTake(vs: seq<View>, m: Mark): seq<View>
    requires |vs| >= 3 && vs[|vs| - 1].inbox != []
  {
    var last := |vs| - 1;
    var v := vs[last];
    GetsAck(vs[last := AddAck(AddData(v, m), m.(hash := "")).(inbox := v.inbox[1..])], last - 1, m.sig)
  }

  function ViewsAfterPassAck(vs: seq<View>, j: nat, m: Mark): seq<View>
    requires 0 < j < |vs| && vs[j].ackBox != []
  {
    GetsAck(vs[j := AddAck(vs[j], m).(ackBox := vs[j].ackBox[1..])], j - 1, m.sig)
  }

  function ViewsAfterTakeAck(vs: seq<View>, m: Mark): seq<View>
    requires |vs| >= 3 && vs[0].ackBox != []
  {
    vs[0 := AddAck(vs[0], m).(ackBox := vs[0].ackBox[1..])]
  }

  lemma SendLinks(vs: seq<View>, sent: seq<string>, m: Mark, d: string)
    requires |vs| >= 3 && |vs[0].data| == |sent| && LinksOk(vs, sent) && AckLinksOk(vs)
    ensures LinksOk(ViewsAfterSend(vs, m, d), sent + [d])
    ensures AckLinksOk(ViewsAfterSend(vs, m, d))
  {
    var ws := ViewsAfterSend(vs, m, d);
    LinksLater(vs, sent, d);
    assert LinkAt(vs, 0, sent + [d]);
    LinkPush(vs[0].data, vs[1].inbox, vs[1].data, sent + [d], m);
    assert LinkAt(ws, 0, sent + [d]);
    assert AckLinkAt(vs, 0) && Source(ws, 0) == Source(vs, 0);
    hide DataLink, AckLink, LinksOk, AckLinksOk;
    LinksStay(vs, ws, sent + [d], 0);
    AckLinksStay(vs, ws, 0);
  }

  lemma SendKeeps(h: string -> string, vs: seq<View>, sent: seq<string>, used: set<string>, m: Mark, d: string)
    requires ViewsOk(h, vs, sent, used) && m.sig !in used && m.hash == h(d + HashOf(vs[0].data))
    ensures ViewsOk(h, ViewsAfterSend(vs, m, d), sent + [d], used + {m.sig})
  {
    var ws, sent' := ViewsAfterSend(vs, m, d), sent + [d];
    assert NodeOk(h, vs[0], sent, used);
    assert sent[..|sent|] == sent && sent'[..|sent'|] == sent';
    HashChainGrows(h, sent, d);
    NodeOkLater(h, vs[0], sent, used, [d], m.sig);
    FreshGrows(vs[0].data, used, m);
    HashesGrowOk(h, vs[0].data, sent', m);
    assert NodeOk(h, ws[0], sent', used + {m.sig});
    hide NodeOk, LinksOk, AckLinksOk, Acknowledged;
    SendLinks(vs, sent, m, d);
    NodesStay(h, vs, ws, sent, [d], used, m.sig, 0);
    assert ws[|ws| - 1].data == vs[|vs| - 1].data && ws[|ws| - 1].acks == vs[|vs| - 1].acks;
    SameAcknowledged(vs[|vs| - 1], ws[|ws| - 1]);
  }

  lemma SameAcknowledged(v: View, w: View)
    requires Acknowledged(v) && w.data == v.data && w.acks == v.acks
    ensures Acknowledged(w)
  {
  }

  lemma HashOfIsTail(h: string -> string, e: seq<Mark>, sent: seq<string>)
    requires HashesOk(h, e, sent)
    ensures HashOf(e) == Tail(h, sent[..|e|])
  {
    assert e != [] ==> sent[..|e| - 1 + 1] == sent[..|e|];
  }

  /** The next packet at node j carries the next payload and the hash the node computes itself. */
  lemma NextPacket(h: string -> string, vs: seq<View>, sent: seq<string>, used: set<string>, j: nat)
    requires ViewsOk(h, vs, sent, used) && 0 < j < |vs| && vs[j].inbox != []
    ensures var e, p := vs[j].data, vs[j].inbox[0];
      && |e| < |sent| && |e| < |vs[j - 1].data|
      && p == Packet(sent[|e|], Tail(h, sent[..|e| + 1]), vs[j - 1].data[|e|].sig)
      && Tail(h, sent[..|e| + 1]) == h(p.payload + HashOf(e))
  {
    var e, up := vs[j].data, vs[j - 1].data;
    assert LinkAt(vs, j - 1, sent) && NodeOk(h, vs[j - 1], sent, used) && NodeOk(h, vs[j], sent, used);
    assert vs[j].inbox[0] == Packet(sent[|e| + 0], up[|e| + 0].hash, up[|e| + 0].sig);
    HashOfIsTail(h, e, sent);
    assert sent[..|e| + 1] == sent[..|e|] + [sent[|e|]];
    HashChainGrows(h, sent[..|e|], sent[|e|]);
  }

  lemma PassLinks(vs: seq<View>, sent: seq<string>, j: nat, m: Mark)
    requires LinksOk(vs, sent) && AckLinksOk(vs) && 0 < j < |vs| - 1 && vs[j].inbox != []
    requires |vs[j].data| < |sent| && m.prevSig == vs[j].inbox[0].sig && vs[j].inbox[0].payload == sent[|vs[j].data|]
    ensures LinksOk(ViewsAfterPass(vs, j, m), sent) && AckLinksOk(ViewsAfterPass(vs, j, m))
  {
    var ws := ViewsAfterPass(vs, j, m);
    assert LinkAt(vs, j - 1, sent) && LinkAt(vs, j, sent);
    LinkPop(vs[j - 1].data, vs[j].inbox, vs[j].data, sent, m);
    LinkPush(vs[j].data, vs[j + 1].inbox, vs[j + 1].data, sent, m);
    assert LinkAt(ws, j - 1, sent) && LinkAt(ws, j, sent);
    hide DataLink, AckLink, LinksOk;
    LinksStay(vs, ws, sent, j);
    assert AckLinkAt(vs, j - 1) && AckLinkAt(vs, j);
    assert Source(ws, j) == Source(vs, j) && Source(ws, j - 1) == Source(vs, j - 1);
    hide AckLinksOk;
    AckLinksStay(vs, ws, j);
  }

  lemma PassKeeps(h: string -> string, vs: seq<View>, sent: seq<string>, used: set<string>, j: nat, m: Mark)
    requires ViewsOk(h, vs, sent, used) && 0 < j < |vs| - 1 && vs[j].inbox != [] && m.sig !in used
    requires m.prevSig == vs[j].inbox[0].sig && m.hash == h(vs[j].inbox[0].payload + HashOf(vs[j].data))
    ensures m.hash == vs[j].inbox[0].hash
    ensures ViewsOk(h, ViewsAfterPass(vs, j, m), sent, used + {m.sig})
  {
    var ws := ViewsAfterPass(vs, j, m);
    NextPacket(h, vs, sent, used, j);
    hide LinksOk, AckLinksOk, Acknowledged;
    assert NodeOk(h, vs[j], sent, used);
    NodeOkLater(h, vs[j], sent, used, [], m.sig);
    FreshGrows(vs[j].data, used, m);
    HashesGrowOk(h, vs[j].data, sent, m);
    assert sent + [] == sent;
    assert NodeOk(h, ws[j], sent, used + {m.sig});
    hide NodeOk, HashesOk, Fresh;
    PassLinks(vs, sent, j, m);
    NodesStay(h, vs, ws, sent, [], used, m.sig, j);
    assert ws[|ws| - 1].data == vs[|vs| - 1].data && ws[|ws| - 1].acks == vs[|vs| - 1].acks;
    SameAcknowledged(vs[|vs| - 1], ws[|ws| - 1]);
  }

  lemma TakeLinks(vs: seq<View>, sent: seq<string>, m: Mark)
    requires |vs| >= 3 && LinksOk(vs, sent) && AckLinksOk(vs) && vs[|vs| - 1].inbox != []
    requires m.prevSig == vs[|vs| - 1].inbox[0].sig
    ensures LinksOk(ViewsAfterTake(vs, m), sent) && AckLinksOk(ViewsAfterTake(vs, m))
  {
    var ws, x := ViewsAfterTake(vs, m), |vs| - 1;
    assert LinkAt(vs, x - 1, sent) && AckLinkAt(vs, x - 1);
    LinkPop(vs[x - 1].data, vs[x].inbox, vs[x].data, sent, m);
    AckPush(vs[x].data, vs[x - 1].ackBox, vs[x - 1].acks, m);
    assert LinkAt(ws, x - 1, sent) && AckLinkAt(ws, x - 1);
    hide DataLink, AckLink, LinksOk, AckLinksOk;
    LinksStay(vs, ws, sent, x);
    AckLinksStay(vs, ws, x);
  }

  lemma AcknowledgedGrows(v: View, m: Mark)
    requires Acknowledged(v)
    ensures Acknowledged(AddAck(AddData(v, m), m.(hash := "")))
  {
  }

  lemma TakeKeeps(h: string -> string, vs: seq<View>, sent: seq<string>, used: set<string>, m: Mark)
    requires ViewsOk(h, vs, sent, used) && vs[|vs| - 1].inbox != [] && m.sig !in used
    requires m.prevSig == vs[|vs| - 1].inbox[0].sig && m.hash == vs[|vs| - 1].inbox[0].hash
    ensures ViewsOk(h, ViewsAfterTake(vs, m), sent, used + {m.sig})
  {
    var ws, x := ViewsAfterTake(vs, m), |vs| - 1;
    NextPacket(h, vs, sent, used, x);
    hide LinksOk, AckLinksOk, Acknowledged;
    assert NodeOk(h, vs[x], sent, used);
    FreshGrows(vs[x].data, used, m);
    FreshGrows(vs[x].acks, used, m.(hash := ""));
    HashesGrowOk(h, vs[x].data, sent, m);
    assert sent + [] == sent;
    assert NodeOk(h, ws[x], sent, used + {m.sig});
    hide NodeOk, HashesOk, Fresh;
    TakeLinks(vs, sent, m);
    NodesStay(h, vs, ws, sent, [], used, m.sig, x);
    AcknowledgedGrows(vs[x], m);
    SameAcknowledged(AddAck(AddData(vs[x], m), m.(hash := "")), ws[x]);
  }

  lemma SameDataLinks(vs: seq<View>, ws: seq<View>, sent: seq<string>)
    requires LinksOk(vs, sent) && |ws| == |vs|
    requires forall i | 0 <= i < |vs| :: ws[i].data == vs[i].data && ws[i].inbox == vs[i].inbox
    ensures LinksOk(ws, sent)
  {
    LinksStay(vs, ws, sent, -2);
  }

  lemma PassAckLinks(vs: seq<View>, j: nat, m: Mark)
    requires AckLinksOk(vs) && 0 < j < |vs| - 1 && vs[j].ackBox != [] && m.prevSig == vs[j].ackBox[0]
    ensures AckLinksOk(ViewsAfterPassAck(vs, j, m))
  {
    var ws := ViewsAfterPassAck(vs, j, m);
    assert AckLinkAt(vs, j) && AckLinkAt(vs, j - 1);
    AckPop(Source(vs, j), vs[j].ackBox, vs[j].acks, m);
    AckPush(vs[j].acks, vs[j - 1].ackBox, vs[j - 1].acks, m);
    assert Source(ws, j) == Source(vs, j) && Source(ws, j - 1) == vs[j].acks + [m];
    assert AckLinkAt(ws, j) && AckLinkAt(ws, j - 1);
    hide AckLink, AckLinksOk;
    AckLinksStay(vs, ws, j);
  }

  lemma TakeAckLinks(vs: seq<View>, m: Mark)
    requires AckLinksOk(vs) && |vs| >= 3 && vs[0].ackBox != [] && m.prevSig == vs[0].ackBox[0]
    ensures AckLinksOk(ViewsAfterTakeAck(vs, m))
  {
    var ws := ViewsAfterTakeAck(vs, m);
    assert AckLinkAt(vs, 0);
    AckPop(Source(vs, 0), vs[0].ackBox, vs[0].acks, m);
    assert Source(ws, 0) == Source(vs, 0);
    assert AckLinkAt(ws, 0);
    hide AckLink, AckLinksOk;
    AckLinksStay(vs, ws, 0);
  }

  lemma AckNodeOk(h: string -> string, v: View, sent: seq<string>, used: set<string>, m: Mark, w: View)
    requires NodeOk(h, v, sent, used) && m.sig !in used && w.data == v.data && w.acks == v.acks + [m]
    ensures NodeOk(h, w, sent + [], used + {m.sig})
  {
    NodeOkLater(h, v, sent, used, [], m.sig);
    FreshGrows(v.acks, used, m);
  }

  lemma PassAckKeeps(h: string -> string, vs: seq<View>, sent: seq<string>, used: set<string>, j: nat, m: Mark)
    requires ViewsOk(h, vs, sent, used) && 0 < j < |vs| - 1 && vs[j].ackBox != [] && m.sig !in used
    requires m.prevSig == vs[j].ackBox[0]
    ensures ViewsOk(h, ViewsAfterPassAck(vs, j, m), sent, used + {m.sig})
  {
    var ws := ViewsAfterPassAck(vs, j, m);
    assert NodeOk(h, vs[j], sent, used) && sent + [] == sent;
    hide NodeOk, LinksOk, AckLinksOk, Acknowledged;
    AckNodeOk(h, vs[j], sent, used, m, ws[j]);
    PassAckLinks(vs, j, m);
    NodesStay(h, vs, ws, sent, [], used, m.sig, j);
    SameDataLinks(vs, ws, sent);
    SameAcknowledged(vs[|vs| - 1], ws[|ws| - 1]);
  }

  lemma TakeAckKeeps(h: string -> string, vs: seq<View>, sent: seq<string>, used: set<string>, m: Mark)
    requires ViewsOk(h, vs, sent, used) && vs[0].ackBox != [] && m.sig !in used && m.prevSig == vs[0].ackBox[0]
    ensures ViewsOk(h, ViewsAfterTakeAck(vs, m), sent, used + {m.sig})
  {
    var ws := ViewsAfterTakeAck(vs, m);
    assert NodeOk(h, vs[0], sent, used) && sent + [] == sent;
    hide NodeOk, LinksOk, AckLinksOk, Acknowledged;
    AckNodeOk(h, vs[0], sent, used, m, ws[0]);
    TakeAckLinks(vs, m);
    NodesStay(h, vs, ws, sent, [], used, m.sig, 0);
    SameDataLinks(vs, ws, sent);
    SameAcknowledged(vs[|vs| - 1], ws[|ws| - 1]);
  }

  // ------------------------------------------------------------------------------------------
  // The invariant on the network
  // ------------------------------------------------------------------------------------------

  /** Which nodes may have a row under way, and of which kind. */
  predicate Waiting(k: Node, mayData: bool, mayAck: bool) {
    && (k.data.Some? ==> mayData && k.data.value.hash != "")
    && (k.ack.Some? ==> mayAck && k.ack.value.hash == "")
  }

  predicate Shaped(nodes: seq<Node>) {
    forall j | 0 <= j < |nodes| :: Waiting(nodes[j], 2 <= j < |nodes| - 1, 1 <= j < |nodes| - 2)
  }

  /** Each data row of the sender names the signature of the row before it, ACK rows included. */
  predicate SelfLinked(c: seq<Row>) {
    && (c != [] && !IsAck(c[0]) ==> c[0].prevSig == "")
    && (forall i | 0 < i < |c| && !IsAck(c[i]) :: c[i].prevSig == c[i - 1].sig)
  }

  ghost predicate RowsOk(nodes: seq<Node>) {
    (forall j | 0 <= j < |nodes| :: Linked(nodes[j].rows)) && (nodes != [] ==> SelfLinked(nodes[0].rows))
  }

  ghost predicate Inv(h: string -> string, net: Net) {
    && |net.nodes| >= 3
    && ViewsOk(h, Views(net), net.sent, net.used)
    && Shaped(net.nodes) && RowsOk(net.nodes)
    && net.mismatches == 0 && "" !in net.sent
  }

  lemma ViewWritten(ch: string, k: Node, m: Mark)
    requires k.data == None && m.hash != ""
    ensures ViewOf(k.(rows := Written(ch, k.rows, m))) == AddData(ViewOf(k), m)
  {
    WrittenView(ch, k.rows, m);
  }

  lemma ViewPending(k: Node, m: Mark)
    requires k.data == None
    ensures ViewOf(k.(data := Some(m))) == AddData(ViewOf(k), m)
  {
  }

  lemma ViewSettled(ch: string, k: Node)
    requires k.data.Some? && k.data.value.hash != ""
    ensures ViewOf(k.(rows := Written(ch, k.rows, k.data.value), data := None)) == ViewOf(k)
  {
    WrittenView(ch, k.rows, k.data.value);
  }

  lemma ViewAckWritten(ch: string, k: Node, m: Mark)
    requires k.ack == None && m.hash == "" && !Answers(ViewOf(k).acks, m.prevSig)
    ensures ViewOf(k.(rows := AckWritten(ch, k.rows, m))) == AddAck(ViewOf(k), m)
    ensures AckWritten(ch, k.rows, m) == k.rows + [AckRow(ch, m.prevSig, m.sig)]
    ensures !HasAck(k.rows, m.prevSig)
  {
    assert ViewOf(k).acks == Marks(k.rows, true);
    AckWrittenView(ch, k.rows, m);
    NoAckNoMark(k.rows, m.prevSig);
  }

  lemma ViewAckPending(k: Node, m: Mark)
    requires k.ack == None
    ensures ViewOf(k.(ack := Some(m))) == AddAck(ViewOf(k), m)
  {
  }

  lemma ViewAckSettled(ch: string, k: Node)
    requires k.ack.Some? && k.ack.value.hash == ""
    requires !Answers(Marks(k.rows, true), k.ack.value.prevSig)
    ensures ViewOf(k.(rows := AckWritten(ch, k.rows, k.ack.value), ack := None)) == ViewOf(k)
    ensures AckWritten(ch, k.rows, k.ack.value) == k.rows + [AckRow(ch, k.ack.value.prevSig, k.ack.value.sig)]
  {
    AckWrittenView(ch, k.rows, k.ack.value);
  }

  lemma ViewsUpdate(net: Net, j: nat, k: Node)
    requires j < |net.nodes|
    ensures Views(net.(nodes := net.nodes[j := k])) == Views(net)[j := ViewOf(k)]
  {
  }

  lemma ViewOfNode(net: Net, j: nat)
    requires j < |net.nodes|
    ensures |Views(net)| == |net.nodes| && Views(net)[j] == ViewOf(net.nodes[j])
    ensures net.nodes[j].data == None ==> HashOf(Views(net)[j].data) == LastHash(net.nodes[j].rows)
  {
    LastHashOfMarks(net.nodes[j].rows);
    assert net.nodes[j].data == None ==> Views(net)[j].data == Marks(net.nodes[j].rows, false);
  }

  // --- rows ---

  lemma WrittenLinked(ch: string, c: seq<Row>, m: Mark)
    requires Linked(c)
    ensures Linked(Written(ch, c, m))
  {
    LinkedGrows(c, Row(ch, m.hash, LastHash(c), m.prevSig, m.sig));
  }

  lemma AckAppendedLinked(ch: string, c: seq<Row>, prevSig: string, sig: string)
    requires Linked(c)
    ensures Linked(c + [AckRow(ch, prevSig, sig)])
  {
    LinkedGrows(c, AckRow(ch, prevSig, sig));
  }

  lemma SelfLinkedGrows(c: seq<Row>, r: Row)
    requires SelfLinked(c) && (IsAck(r) || r.prevSig == LastSig(c))
    ensures SelfLinked(c + [r])
  {
    var d := c + [r];
    assert d[|c|] == r;
    assert forall i | 0 <= i < |c| :: d[i] == c[i];
  }

  lemma RowsStay(nodes: seq<Node>, j: nat, k: Node)
    requires RowsOk(nodes) && j < |nodes| && Linked(k.rows) && (j == 0 ==> SelfLinked(k.rows))
    ensures RowsOk(nodes[j := k])
  {
    hide Linked, SelfLinked;
  }

  lemma ShapeStays(nodes: seq<Node>, j: nat, k: Node)
    requires Shaped(nodes) && j < |nodes| && Waiting(k, 2 <= j < |nodes| - 1, 1 <= j < |nodes| - 2)
    ensures Shaped(nodes[j := k])
  {
  }

  // --- steps ---

  lemma SendView(h: string -> string, net: Net, payload: string, sig: string)
    requires Enabled(net, Send(payload, sig)) && Shaped(net.nodes) && forall x :: h(x) != ""
    ensures var a := net.nodes[0];
      Views(OnSend(h, net, payload, sig))
        == ViewsAfterSend(Views(net), Mark(h(payload + LastHash(a.rows)), LastSig(a.rows), sig), payload)
  {
    var a := net.nodes[0];
    var m := Mark(h(payload + LastHash(a.rows)), LastSig(a.rows), sig);
    assert Waiting(a, false, false);
    ViewWritten(net.ch, a, m);
    hide Written, LastHash, LastSig, Marks;
    var a' := a.(rows := Written(net.ch, a.rows, m), handled := a.handled + [payload]);
    assert ViewOf(a') == AddData(ViewOf(a), m);
    var b := net.nodes[1];
    var p := Packet(payload, m.hash, sig);
    assert ViewOf(b.(inbox := b.inbox + [p])) == ViewOf(b).(inbox := b.inbox + [p]);
    assert Views(OnSend(h, net, payload, sig)) == ViewsAfterSend(Views(net), m, payload);
  }

  lemma SendInv(h: string -> string, net: Net, payload: string, sig: string)
    requires Inv(h, net) && Enabled(net, Send(payload, sig)) && payload != "" && forall x :: h(x) != ""
    ensures Inv(h, OnSend(h, net, payload, sig))
  {
    var a, net' := net.nodes[0], OnSend(h, net, payload, sig);
    var m := Mark(h(payload + LastHash(a.rows)), LastSig(a.rows), sig);
    assert Waiting(a, false, false) && Linked(a.rows);
    SendView(h, net, payload, sig);
    ViewOfNode(net, 0);
    SelfLinkedGrows(a.rows, Row(net.ch, m.hash, LastHash(a.rows), m.prevSig, m.sig));
    WrittenLinked(net.ch, a.rows, m);
    hide ViewsOk, Linked, SelfLinked, Written, Views, Waiting, LastHash, LastSig, ViewsAfterSend, RowsOk, Shaped;
    SendKeeps(h, Views(net), net.sent, net.used, m, payload);
    SameWaiting(a, net'.nodes[0], false, false);
    TwoNodes(net.nodes, 0, net'.nodes[0], 1, net'.nodes[1]);
  }

  lemma SameWaiting(k: Node, l: Node, mayData: bool, mayAck: bool)
    requires Waiting(k, mayData, mayAck) && l.data == k.data && l.ack == k.ack
    ensures Waiting(l, mayData, mayAck)
  {
  }

  /** A step rewrites node i and puts something into a box of node l. */
  lemma TwoNodes(nodes: seq<Node>, i: nat, k: Node, l: nat, b: Node)
    requires RowsOk(nodes) && Shaped(nodes) && i < |nodes| && l < |nodes| && l != i
    requires Linked(k.rows) && (i == 0 ==> SelfLinked(k.rows))
    requires Waiting(k, 2 <= i < |nodes| - 1, 1 <= i < |nodes| - 2)
    requires b.rows == nodes[l].rows && b.data == nodes[l].data && b.ack == nodes[l].ack
    ensures RowsOk(nodes[i := k][l := b]) && Shaped(nodes[i := k][l := b])
  {
    var ns := nodes[i := k];
    RowsStay(nodes, i, k);
    ShapeStays(nodes, i, k);
    assert ns[l] == nodes[l] && Linked(b.rows) && (l == 0 ==> SelfLinked(b.rows));
    assert Waiting(nodes[l], 2 <= l < |nodes| - 1, 1 <= l < |nodes| - 2);
    RowsStay(ns, l, b);
    ShapeStays(ns, l, b);
  }

  lemma ViewsDeliver(net: Net, net': Net, j: nat, k: Node, l: nat, p: Packet)
    requires j < |net.nodes| && l < |net.nodes| && l != j && net'.nodes == Deliver(net.nodes[j := k], l, p)
    ensures Views(net') == Gets(Views(net)[j := ViewOf(k)], l, p)
    ensures net'.nodes[j] == k && net'.nodes == net.nodes[j := k][l := net'.nodes[l]]
    ensures var b, b' := net.nodes[l], net'.nodes[l]; b'.rows == b.rows && b'.data == b.data && b'.ack == b.ack
  {
    hide Marks;
  }

  lemma ViewsDeliverAck(net: Net, net': Net, j: nat, k: Node, l: nat, sig: string)
    requires j < |net.nodes| && l < |net.nodes| && l != j && net'.nodes == DeliverAck(net.nodes[j := k], l, sig)
    ensures Views(net') == GetsAck(Views(net)[j := ViewOf(k)], l, sig)
    ensures net'.nodes[j] == k && net'.nodes == net.nodes[j := k][l := net'.nodes[l]]
    ensures var b, b' := net.nodes[l], net'.nodes[l]; b'.rows == b.rows && b'.data == b.data && b'.ack == b.ack
  {
    hide Marks;
  }

  lemma PassNodeOk(h: string -> string, ch: string, first: bool, mayAck: bool, k: Node, sig: string)
    requires k.inbox != [] && k.inbox[0].payload != "" && k.data == None && forall x :: h(x) != ""
    requires Linked(k.rows) && Waiting(k, !first, mayAck)
    ensures var k', m := PassNode(h, ch, first, k, sig), PassMark(h, k, sig);
      && ViewOf(k') == AddData(ViewOf(k), m).(inbox := k.inbox[1..])
      && Linked(k'.rows) && Waiting(k', !first, mayAck)
  {
    var m := PassMark(h, k, sig);
    ViewWritten(ch, k, m);
    ViewPending(k, m);
    WrittenLinked(ch, k.rows, m);
    hide Written, LastHash, Marks, Linked;
  }

  lemma PassFacts(h: string -> string, net: Net, j: nat, sig: string)
    requires Inv(h, net) && Enabled(net, Pass(j, sig)) && forall x :: h(x) != ""
    ensures var k, m := net.nodes[j], PassMark(h, net.nodes[j], sig);
      && k.inbox[0].payload != "" && m.hash == k.inbox[0].hash
      && Views(net)[j] == ViewOf(k) && m.hash == h(Views(net)[j].inbox[0].payload + HashOf(Views(net)[j].data))
      && Linked(k.rows) && Waiting(k, 2 <= j < |net.nodes| - 1, 1 <= j < |net.nodes| - 2)
      && ViewOf(PassNode(h, net.ch, j == 1, k, sig)) == AddData(ViewOf(k), m).(inbox := k.inbox[1..])
      && Linked(PassNode(h, net.ch, j == 1, k, sig).rows)
      && Waiting(PassNode(h, net.ch, j == 1, k, sig), 2 <= j < |net.nodes| - 1, 1 <= j < |net.nodes| - 2)
  {
    var k := net.nodes[j];
    ViewOfNode(net, j);
    NextPacket(h, Views(net), net.sent, net.used, j);
    assert Linked(k.rows) && Waiting(k, 2 <= j < |net.nodes| - 1, 1 <= j < |net.nodes| - 2);
    hide ViewsOk, RowsOk, Shaped, Linked, Views, ViewOf, LastHash, PassNode;
    PassNodeOk(h, net.ch, j == 1, 1 <= j < |net.nodes| - 2, k, sig);
  }

  lemma PassInv(h: string -> string, net: Net, j: nat, sig: string)
    requires Inv(h, net) && Enabled(net, Pass(j, sig)) && forall x :: h(x) != ""
    ensures Inv(h, OnPass(h, net, j, sig))
  {
    var k, net', vs := net.nodes[j], OnPass(h, net, j, sig), Views(net);
    var m := PassMark(h, k, sig);
    PassFacts(h, net, j, sig);
    hide ViewsOk, Linked, SelfLinked, Views, RowsOk, Shaped, PassNode, PassMark, Waiting, HashOf;
    var k' := PassNode(h, net.ch, j == 1, k, sig);
    ViewsDeliver(net, net', j, k', j + 1, Packet(k.inbox[0].payload, m.hash, sig));
    PassKeeps(h, vs, net.sent, net.used, j, m);
    TwoNodes(net.nodes, j, k', j + 1, net'.nodes[j + 1]);
  }

  lemma WriteInv(h: string -> string, net: Net, j: nat)
    requires Inv(h, net) && Enabled(net, Write(j))
    ensures Inv(h, OnWrite(net, j))
  {
    var k, net' := net.nodes[j], OnWrite(net, j);
    assert Linked(k.rows) && Waiting(k, 2 <= j < |net.nodes| - 1, 1 <= j < |net.nodes| - 2);
    ViewSettled(net.ch, k);
    WrittenLinked(net.ch, k.rows, k.data.value);
    ViewsUpdate(net, j, net'.nodes[j]);
    ViewOfNode(net, j);
    hide ViewsOk, Linked, SelfLinked, Written, Views, LastHash, RowsOk, Shaped;
    assert Views(net') == Views(net);
    RowsStay(net.nodes, j, net'.nodes[j]);
    ShapeStays(net.nodes, j, net'.nodes[j]);
  }

  function TakeMark(p: Packet, sig: string): Mark {
    Mark(p.hash, p.sig, sig)
  }

  /** The receiver has not acknowledged the next packet yet: its signature is new. */
  lemma NextUnanswered(h: string -> string, vs: seq<View>, sent: seq<string>, used: set<string>)
    requires ViewsOk(h, vs, sent, used) && vs[|vs| - 1].inbox != []
    ensures !Answers(vs[|vs| - 1].acks, vs[|vs| - 1].inbox[0].sig)
  {
    var x := |vs| - 1;
    NextPacket(h, vs, sent, used, x);
    assert LinkAt(vs, x - 1, sent) && NodeOk(h, vs[x - 1], sent, used);
  }

  lemma TakeRows(ch: string, x: Node, m: Mark) returns (rows: seq<Row>)
    requires x.data == None && x.ack == None && m.hash != "" && !Answers(ViewOf(x).acks, m.prevSig) && Linked(x.rows)
    ensures rows == Written(ch, x.rows, m) + [AckRow(ch, m.prevSig, m.sig)]
    ensures !HasAck(Written(ch, x.rows, m), m.prevSig) && Linked(rows)
    ensures ViewOf(x.(rows := rows)) == AddAck(AddData(ViewOf(x), m), m.(hash := ""))
  {
    var y := x.(rows := Written(ch, x.rows, m));
    ViewWritten(ch, x, m);
    WrittenLinked(ch, x.rows, m);
    hide Written, Linked;
    ViewAckWritten(ch, y, m.(hash := ""));
    rows := y.rows + [AckRow(ch, m.prevSig, m.sig)];
    AckAppendedLinked(ch, y.rows, m.prevSig, m.sig);
  }

  lemma TakeNodeOk(ch: string, x: Node, sig: string)
    requires x.inbox != [] && x.inbox[0].hash != "" && !Answers(ViewOf(x).acks, x.inbox[0].sig)
    requires Linked(x.rows) && Waiting(x, false, false)
    ensures var x', m := TakeNode(ch, x, sig), TakeMark(x.inbox[0], sig);
      && ViewOf(x') == AddAck(AddData(ViewOf(x), m), m.(hash := "")).(inbox := x.inbox[1..])
      && Linked(x'.rows) && Waiting(x', false, false)
  {
    hide HasAck, Written, Marks, Linked;
    var rows := TakeRows(ch, x, TakeMark(x.inbox[0], sig));
  }

  lemma TakeFacts(h: string -> string, net: Net, x: Node)
    requires Inv(h, net) && x == net.nodes[|net.nodes| - 1] && x.inbox != [] && forall x :: h(x) != ""
    ensures Linked(x.rows) && Waiting(x, false, false)
    ensures |Views(net)| == |net.nodes| && Views(net)[|net.nodes| - 1] == ViewOf(x)
    ensures x.inbox[0].hash != "" && !Answers(ViewOf(x).acks, x.inbox[0].sig)
  {
    hide Views, ViewsOk, ViewOf, Answers, Linked, Waiting;
    var last := |net.nodes| - 1;
    ViewOfNode(net, last);
    hide RowsOk, Shaped;
    InboxOf(x);
    NextPacket(h, Views(net), net.sent, net.used, last);
    NextUnanswered(h, Views(net), net.sent, net.used);
  }

  lemma InboxOf(k: Node)
    ensures ViewOf(k).inbox == k.inbox && ViewOf(k).ackBox == k.acks
  {
  }

  lemma TakeInv(h: string -> string, net: Net, sig: string)
    requires Inv(h, net) && Enabled(net, TakeData(sig)) && forall x :: h(x) != ""
    ensures Inv(h, OnTakeData(net, sig))
  {
    hide ViewsOk, Linked, SelfLinked, Views, RowsOk, Shaped, TakeNode, Waiting, Answers, ViewOf;
    var last, net' := |net.nodes| - 1, OnTakeData(net, sig);
    var x := net.nodes[last];
    TakeFacts(h, net, x);
    var x' := TakeNode(net.ch, x, sig);
    TakeNodeOk(net.ch, x, sig);
    ViewsDeliverAck(net, net', last, x', last - 1, sig);
    TakeViews(h, net, net', x, x', sig);
    TwoNodes(net.nodes, last, x', last - 1, net'.nodes[last - 1]);
  }

  lemma TakeViews(h: string -> string, net: Net, net': Net, x: Node, x': Node, sig: string)
    requires |net.nodes| >= 3 && ViewsOk(h, Views(net), net.sent, net.used)
    requires x == net.nodes[|net.nodes| - 1] && x.inbox != [] && sig !in net.used
    requires var m := TakeMark(x.inbox[0], sig);
      ViewOf(x') == AddAck(AddData(ViewOf(x), m), m.(hash := "")).(inbox := x.inbox[1..])
    requires Views(net') == GetsAck(Views(net)[|net.nodes| - 1 := ViewOf(x')], |net.nodes| - 2, sig)
    ensures ViewsOk(h, Views(net'), net.sent, net.used + {sig})
  {
    hide ViewsOk, Views, ViewOf;
    ViewOfNode(net, |net.nodes| - 1);
    InboxOf(x);
    TakeKeeps(h, Views(net), net.sent, net.used, TakeMark(x.inbox[0], sig));
  }

  /** The next ACK at node j answers a signature that no ACK row of the node answers yet. */
  lemma NextAckNew(h: string -> string, vs: seq<View>, sent: seq<string>, used: set<string>, j: nat)
    requires ViewsOk(h, vs, sent, used) && j < |vs| - 1 && vs[j].ackBox != []
    ensures !Answers(vs[j].acks, vs[j].ackBox[0])
  {
    assert AckLinkAt(vs, j) && NodeOk(h, vs[j + 1], sent, used);
    NoDoubleAck(Source(vs, j), vs[j].ackBox, vs[j].acks, used);
  }

  lemma PassAckNodeOk(ch: string, last: bool, mayData: bool, k: Node, sig: string)
    requires k.acks != [] && k.ack == None && !Answers(ViewOf(k).acks, k.acks[0])
    requires Linked(k.rows) && Waiting(k, mayData, !last)
    ensures var k', m := PassAckNode(ch, last, k, sig), Mark("", k.acks[0], sig);
      && ViewOf(k') == AddAck(ViewOf(k), m).(ackBox := k.acks[1..])
      && Linked(k'.rows) && Waiting(k', mayData, !last)
  {
    var m := Mark("", k.acks[0], sig);
    ViewAckWritten(ch, k, m);
    ViewAckPending(k, m);
    AckAppendedLinked(ch, k.rows, m.prevSig, m.sig);
    hide AckWritten, Marks, Linked;
  }

  lemma PassAckFacts(h: string -> string, net: Net, j: nat)
    requires Inv(h, net) && IsKernel(net, j) && net.nodes[j].acks != []
    ensures var k := net.nodes[j];
      && |Views(net)| == |net.nodes| && Views(net)[j] == ViewOf(k) && !Answers(ViewOf(k).acks, k.acks[0])
      && Linked(k.rows) && Waiting(k, 2 <= j < |net.nodes| - 1, 1 <= j < |net.nodes| - 2)
  {
    hide Views, ViewsOk, ViewOf, Answers, Linked, Waiting;
    ViewOfNode(net, j);
    InboxOf(net.nodes[j]);
    NextAckNew(h, Views(net), net.sent, net.used, j);
  }

  lemma PassAckViews(h: string -> string, net: Net, net': Net, j: nat, k': Node, sig: string)
    requires ViewsOk(h, Views(net), net.sent, net.used) && sig !in net.used
    requires IsKernel(net, j) && net.nodes[j].acks != []
    requires var k := net.nodes[j];
      ViewOf(k') == AddAck(ViewOf(k), Mark("", k.acks[0], sig)).(ackBox := k.acks[1..])
    requires Views(net') == GetsAck(Views(net)[j := ViewOf(k')], j - 1, sig)
    ensures ViewsOk(h, Views(net'), net.sent, net.used + {sig})
  {
    hide Views, ViewsOk, ViewOf;
    ViewOfNode(net, j);
    InboxOf(net.nodes[j]);
    PassAckKeeps(h, Views(net), net.sent, net.used, j, Mark("", net.nodes[j].acks[0], sig));
  }

  lemma PassAckInv(h: string -> string, net: Net, j: nat, sig: string)
    requires Inv(h, net) && Enabled(net, PassAck(j, sig))
    ensures Inv(h, OnPassAck(net, j, sig))
  {
    hide ViewsOk, Linked, SelfLinked, Views, RowsOk, Shaped, PassAckNode, Waiting, Answers, ViewOf;
    var k, net', last := net.nodes[j], OnPassAck(net, j, sig), j == |net.nodes| - 2;
    PassAckFacts(h, net, j);
    var k' := PassAckNode(net.ch, last, k, sig);
    PassAckNodeOk(net.ch, last, 2 <= j < |net.nodes| - 1, k, sig);
    ViewsDeliverAck(net, net', j, k', j - 1, sig);
    PassAckViews(h, net, net', j, k', sig);
    TwoNodes(net.nodes, j, k', j - 1, net'.nodes[j - 1]);
  }

  /** The ACK under way at node j answers a signature that no written ACK row answers. */
  lemma PendingAckNew(h: string -> string, net: Net, j: nat)
    requires ViewsOk(h, Views(net), net.sent, net.used) && j < |net.nodes| - 1 && net.nodes[j].ack.Some?
    ensures !Answers(Marks(net.nodes[j].rows, true), net.nodes[j].ack.value.prevSig)
  {
    var vs, k := Views(net), net.nodes[j];
    var from, f, n := Source(vs, j), vs[j].acks, |Marks(k.rows, true)|;
    assert AckLinkAt(vs, j) && NodeOk(h, vs[j + 1], net.sent, net.used);
    assert f == Marks(k.rows, true) + [k.ack.value];
    assert f[n] == k.ack.value && f[n].prevSig == from[n].sig;
    forall i | 0 <= i < n
      ensures Marks(k.rows, true)[i].prevSig != k.ack.value.prevSig
    {
      assert f[i] == Marks(k.rows, true)[i] && f[i].prevSig == from[i].sig;
    }
  }

  lemma WriteAckInv(h: string -> string, net: Net, j: nat)
    requires Inv(h, net) && Enabled(net, WriteAck(j))
    ensures Inv(h, OnWriteAck(net, j))
  {
    var k, net' := net.nodes[j], OnWriteAck(net, j);
    assert Linked(k.rows) && Waiting(k, 2 <= j < |net.nodes| - 1, 1 <= j < |net.nodes| - 2);
    PendingAckNew(h, net, j);
    ViewAckSettled(net.ch, k);
    AckAppendedLinked(net.ch, k.rows, k.ack.value.prevSig, k.ack.value.sig);
    ViewsUpdate(net, j, net'.nodes[j]);
    ViewOfNode(net, j);
    hide ViewsOk, Linked, SelfLinked, AckWritten, Views, RowsOk, Shaped, Marks;
    assert Views(net') == Views(net);
    RowsStay(net.nodes, j, net'.nodes[j]);
    ShapeStays(net.nodes, j, net'.nodes[j]);
  }

  lemma TakeAckInv(h: string -> string, net: Net, sig: string)
    requires Inv(h, net) && Enabled(net, TakeAck(sig))
    ensures Inv(h, OnTakeAck(net, sig))
  {
    var a, net', vs := net.nodes[0], OnTakeAck(net, sig), Views(net);
    var m := Mark("", a.acks[0], sig);
    assert Linked(a.rows) && Waiting(a, false, false) && SelfLinked(a.rows);
    ViewOfNode(net, 0);
    NextAckNew(h, vs, net.sent, net.used, 0);
    ViewAckWritten(net.ch, a, m);
    AckAppendedLinked(net.ch, a.rows, m.prevSig, m.sig);
    SelfLinkedGrows(a.rows, AckRow(net.ch, m.prevSig, m.sig));
    hide ViewsOk, Linked, SelfLinked, AckWritten, Views, RowsOk, Shaped, Marks, HasAck;
    ViewsUpdate(net, 0, net'.nodes[0]);
    assert ViewOf(net'.nodes[0]) == AddAck(ViewOf(a), m).(ackBox := a.acks[1..]);
    assert Views(net') == ViewsAfterTakeAck(vs, m);
    TakeAckKeeps(h, vs, net.sent, net.used, m);
    RowsStay(net.nodes, 0, net'.nodes[0]);
    ShapeStays(net.nodes, 0, net'.nodes[0]);
  }
}
