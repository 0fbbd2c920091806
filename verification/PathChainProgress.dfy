/** The path works off what is under way: it is never stuck before everything is acknowledged, and it
    comes to rest after a bounded number of steps, whatever their order. */
module PathChainProgress {
  import opened Wrappers
  import opened BusinessChain
  import opened ChainHistory
  import opened PathChain
  import opened PathChainProofs
  import opened PathChainTheorems

  // ------------------------------------------------------------------------------------------
  // Never stuck
  // ------------------------------------------------------------------------------------------

  /** Nothing ever arrives where it is not dealt with. */
  predicate EndsIdle(nodes: seq<Node>) {
    && |nodes| >= 3
    && nodes[0].inbox == [] && nodes[0].data == None && nodes[0].ack == None
    && var x := nodes[|nodes| - 1]; x.acks == [] && x.data == None && x.ack == None
  }

  lemma NextEnds(h: string -> string, net: Net, s: Step)
    requires EndsIdle(net.nodes)
    ensures EndsIdle(NetNext(h, net, s).nodes)
  {
    hide Written, AckWritten, HasAck;
  }

  lemma {:induction false} RunEnds(h: string -> string, ch: string, n: nat, steps: seq<Step>)
    requires n >= 1
    ensures EndsIdle(NetRun(h, Start(ch, n), steps).nodes)
  {
    hide NetNext;
    if steps != [] {
      RunEnds(h, ch, n, steps[..|steps| - 1]);
      NextEnds(h, NetRun(h, Start(ch, n), steps[..|steps| - 1]), steps[|steps| - 1]);
    }
  }

  /** A node with something to do can do it. */
  lemma NodeCanStep(net: Net, j: nat, sig: string) returns (s: Step)
    requires EndsIdle(net.nodes) && j < |net.nodes| && sig !in net.used
    requires var k := net.nodes[j]; k.inbox != [] || k.data.Some? || k.acks != [] || k.ack.Some?
    ensures Enabled(net, s) && !s.Send?
  {
    var k, last := net.nodes[j], |net.nodes| - 1;
    if j == 0 {
      s := TakeAck(sig);
    } else if j == last {
      s := TakeData(sig);
    } else if k.data.Some? {
      s := Write(j);
    } else if k.ack.Some? {
      s := WriteAck(j);
    } else if k.inbox != [] {
      s := Pass(j, sig);
    } else {
      s := PassAck(j, sig);
    }
  }

  /** In every reachable state either nothing is under way or, given a new signature, some step other
      than sending is possible. */
  lemma NeverStuck(h: string -> string, ch: string, n: nat, steps: seq<Step>, sig: string)
    requires n >= 1 && sig !in NetRun(h, Start(ch, n), steps).used
    ensures var net := NetRun(h, Start(ch, n), steps);
      (DataQuiet(net) && AckQuiet(net)) || exists s :: Enabled(net, s) && !s.Send?
  {
    hide NetRun, Start, Enabled;
    var net := NetRun(h, Start(ch, n), steps);
    RunEnds(h, ch, n, steps);
    if !(DataQuiet(net) && AckQuiet(net)) {
      var j :| 0 <= j < |net.nodes| && !(net.nodes[j].inbox == [] && net.nodes[j].data == None
                                         && net.nodes[j].acks == [] && net.nodes[j].ack == None);
      var s := NodeCanStep(net, j, sig);
    }
  }

  // ------------------------------------------------------------------------------------------
  // Bounded work
  // ------------------------------------------------------------------------------------------

  function Times(k: nat, w: nat): nat {
    if k == 0 then 0 else w + Times(k - 1, w)
  }

  /** The steps a data packet in the box of node j of m may still cause, and an ACK in the box of node j. */
  function DataWork(m: nat, j: nat): nat {
    if j < m then 2 * m + 2 * (m - 1 - j) else 0
  }

  function AckWork(j: nat): nat {
    2 * j + 1
  }

  function NodeWork(m: nat, j: nat, k: Node): nat {
    Times(|k.inbox|, DataWork(m, j)) + Times(|k.acks|, AckWork(j))
    + (if k.data.Some? then 1 else 0) + (if k.ack.Some? then 1 else 0)
  }

  function Sum(nodes: seq<Node>, i: nat): nat
    requires i <= |nodes|
  {
    if i == 0 then 0 else Sum(nodes, i - 1) + NodeWork(|nodes|, i - 1, nodes[i - 1])
  }

  function Work(net: Net): nat {
    Sum(net.nodes, |net.nodes|)
  }

  lemma {:induction false} SumUpdate(nodes: seq<Node>, i: nat, j: nat, k: Node)
    requires i <= |nodes| && j < |nodes|
    ensures Sum(nodes[j := k], i)
         == Sum(nodes, i) + if j < i then NodeWork(|nodes|, j, k) - NodeWork(|nodes|, j, nodes[j]) else 0
  {
    hide NodeWork;
    if i > 0 {
      SumUpdate(nodes, i - 1, j, k);
    }
  }

  /** The change of work when nodes i and l are replaced. */
  lemma TwoUpdates(nodes: seq<Node>, i: nat, k: Node, l: nat, b: Node)
    requires i < |nodes| && l < |nodes| && i != l
    ensures var m := |nodes|;
      Sum(nodes[i := k][l := b], m) == Sum(nodes, m) + NodeWork(m, i, k) - NodeWork(m, i, nodes[i])
        + NodeWork(m, l, b) - NodeWork(m, l, nodes[l])
  {
    hide NodeWork;
    SumUpdate(nodes, |nodes|, i, k);
    SumUpdate(nodes[i := k], |nodes|, l, b);
  }

  lemma Popped<T>(box: seq<T>, w: nat)
    requires box != []
    ensures Times(|box|, w) == w + Times(|box[1..]|, w)
  {
  }

  lemma Pushed<T>(box: seq<T>, x: T, w: nat)
    ensures Times(|box + [x]|, w) == Times(|box|, w) + w
  {
  }

  lemma PassDrains(h: string -> string, net: Net, j: nat, sig: string)
    requires Enabled(net, Pass(j, sig))
    ensures Work(OnPass(h, net, j, sig)) < Work(net)
  {
    hide Times, Sum, Written;
    var m, k, net' := |net.nodes|, net.nodes[j], OnPass(h, net, j, sig);
    var k', b, b' := net'.nodes[j], net.nodes[j + 1], net'.nodes[j + 1];
    assert net'.nodes == net.nodes[j := k'][j + 1 := b'];
    TwoUpdates(net.nodes, j, k', j + 1, b');
    Popped(k.inbox, DataWork(m, j));
    Pushed(b.inbox, b'.inbox[|b.inbox|], DataWork(m, j + 1));
    assert b'.inbox == b.inbox + [b'.inbox[|b.inbox|]];
  }

  lemma TakeDrains(net: Net, sig: string)
    requires Enabled(net, TakeData(sig))
    ensures Work(OnTakeData(net, sig)) < Work(net)
  {
    hide Times, Sum, Written, HasAck;
    var m, last, net' := |net.nodes|, |net.nodes| - 1, OnTakeData(net, sig);
    var x, x', b, b' := net.nodes[last], net'.nodes[last], net.nodes[last - 1], net'.nodes[last - 1];
    assert net'.nodes == net.nodes[last := x'][last - 1 := b'];
    TwoUpdates(net.nodes, last, x', last - 1, b');
    Popped(x.inbox, DataWork(m, last));
    Pushed(b.acks, sig, AckWork(last - 1));
  }

  lemma PassAckDrains(net: Net, j: nat, sig: string)
    requires Enabled(net, PassAck(j, sig))
    ensures Work(OnPassAck(net, j, sig)) < Work(net)
  {
    hide Times, Sum, AckWritten;
    var k, net' := net.nodes[j], OnPassAck(net, j, sig);
    var k', b, b' := net'.nodes[j], net.nodes[j - 1], net'.nodes[j - 1];
    assert net'.nodes == net.nodes[j := k'][j - 1 := b'];
    TwoUpdates(net.nodes, j, k', j - 1, b');
    Popped(k.acks, AckWork(j));
    Pushed(b.acks, sig, AckWork(j - 1));
  }

  lemma OneNodeDrains(net: Net, net': Net, j: nat)
    requires j < |net.nodes| == |net'.nodes| && net'.nodes == net.nodes[j := net'.nodes[j]]
    requires NodeWork(|net.nodes|, j, net'.nodes[j]) < NodeWork(|net.nodes|, j, net.nodes[j])
    ensures Work(net') < Work(net)
  {
    hide NodeWork;
    SumUpdate(net.nodes, |net.nodes|, j, net'.nodes[j]);
  }

  /** Every step but sending leaves less to do. */
  lemma StepDrains(h: string -> string, net: Net, s: Step)
    requires Enabled(net, s) && !s.Send?
    ensures Work(NetNext(h, net, s)) < Work(net)
  {
    hide Work, Times, Written, AckWritten, HasAck;
    match s
    case Pass(j, sig) => PassDrains(h, net, j, sig);
    case Write(j) => OneNodeDrains(net, OnWrite(net, j), j);
    case TakeData(sig) => TakeDrains(net, sig);
    case PassAck(j, sig) => PassAckDrains(net, j, sig);
    case WriteAck(j) => OneNodeDrains(net, OnWriteAck(net, j), j);
    case TakeAck(sig) =>
      Popped(net.nodes[0].acks, AckWork(0));
      OneNodeDrains(net, OnTakeAck(net, sig), 0);
  }

  /** Every step of the run is possible, and none sends. */
  ghost predicate Draining(h: string -> string, net: Net, steps: seq<Step>) {
    forall i | 0 <= i < |steps| :: Enabled(NetRun(h, net, steps[..i]), steps[i]) && !steps[i].Send?
  }

  /** So, in whatever order steps are taken, no more of them follow than the work under way at the
      start: the path comes to rest, and then every packet is acknowledged everywhere. */
  lemma {:induction false} WorkIsBounded(h: string -> string, net: Net, steps: seq<Step>)
    requires Draining(h, net, steps)
    ensures |steps| + Work(NetRun(h, net, steps)) <= Work(net)
  {
    hide NetNext, Enabled, Work;
    if steps != [] {
      var k := |steps| - 1;
      assert forall i | 0 <= i < k :: steps[..k][..i] == steps[..i] && steps[..k][i] == steps[i];
      WorkIsBounded(h, net, steps[..k]);
      StepDrains(h, NetRun(h, net, steps[..k]), steps[k]);
    }
  }
}
