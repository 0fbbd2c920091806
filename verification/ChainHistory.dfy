/** What a business chain says about the data it was built from, and how often an ACK is recorded. */
module ChainHistory {
  import opened BusinessChain

  // ------------------------------------------------------------------------------------------
  // The data hashes are a fold over the payloads
  // ------------------------------------------------------------------------------------------

  /** The hash after the payloads `ds`: each is hashed together with the hash before it. */
  function Tail(h: string -> string, ds: seq<string>): string {
    if ds == [] then "" else h(ds[|ds| - 1] + Tail(h, ds[..|ds| - 1]))
  }

  function HashChain(h: string -> string, ds: seq<string>): seq<string> {
    if ds == [] then [] else HashChain(h, ds[..|ds| - 1]) + [Tail(h, ds)]
  }

  function Hashes(c: seq<Row>): seq<string> {
    seq(|DataRows(c)|, i requires 0 <= i < |DataRows(c)| => DataRows(c)[i].dataHash)
  }

  /** The payloads a run of operations on one channel hashes into it. */
  function Payloads(ops: seq<Op>): seq<string> {
    if ops == [] then []
    else
      var before, op := Payloads(ops[..|ops| - 1]), ops[|ops| - 1];
      match op
      case Build(_, data, _) => before + [data]
      case Record(_, data, _) => before + [data]
      case _ => before
  }

  predicate SendsOnly(ops: seq<Op>, ch: string) {
    forall i | 0 <= i < |ops| :: !ops[i].Receive? && ops[i].ch == ch
  }

  lemma HashesGrow(c: seq<Row>, r: Row)
    ensures Hashes(c + [r]) == Hashes(c) + if IsAck(r) then [] else [r.dataHash]
  {
    assert (c + [r])[..|c|] == c;
  }

  lemma {:induction false} HashChainLast(h: string -> string, ds: seq<string>)
    ensures |HashChain(h, ds)| == |ds| && (ds != [] ==> HashChain(h, ds)[|ds| - 1] == Tail(h, ds))
  {
    if ds != [] {
      HashChainLast(h, ds[..|ds| - 1]);
    }
  }

  lemma LastHashIsTail(h: string -> string, c: seq<Row>, ds: seq<string>)
    requires Hashes(c) == HashChain(h, ds)
    ensures LastHash(c) == Tail(h, ds)
  {
    LastHashOfData(c);
    HashChainLast(h, ds);
    assert |Hashes(c)| == |DataRows(c)|;
    if DataRows(c) != [] {
      assert Hashes(c)[|ds| - 1] == DataRows(c)[|ds| - 1].dataHash;
    }
  }

  lemma HashChainGrows(h: string -> string, ds: seq<string>, d: string)
    ensures HashChain(h, ds + [d]) == HashChain(h, ds) + [h(d + Tail(h, ds))]
    ensures Tail(h, ds + [d]) == h(d + Tail(h, ds))
  {
    assert (ds + [d])[..|ds|] == ds;
  }

  /** The data hashes of a channel its owner only sends on are the fold of its payloads; ACKs in
      between do not change it. */
  lemma {:induction false} HashesAreFold(h: string -> string, hex: string -> string, ops: seq<Op>, ch: string)
    requires SendsOnly(ops, ch) && forall x :: h(x) != ""
    ensures Hashes(OfChannel(Run(h, hex, [], ops), ch)) == HashChain(h, Payloads(ops))
  {
    if ops != [] {
      var before, op := ops[..|ops| - 1], ops[|ops| - 1];
      HashesAreFold(h, hex, before, ch);
      var now := Run(h, hex, [], before);
      var c := OfChannel(now, ch);
      NextOnChannel(h, hex, now, op, ch);
      LastHashIsTail(h, c, Payloads(before));
      var n := NewRow(h, hex, c, op);
      if n != [] {
        assert n == [n[0]];
        HashesGrow(c, n[0]);
      } else {
        assert c + n == c;
      }
      if !op.Ack? {
        HashChainGrows(h, Payloads(before), op.data);
      }
      hide Hashes, OfChannel;
    }
  }

  /** The row each operation leaves at the end of such a channel, written out: the hash of the data with
      the hash of all earlier data, that earlier hash, the signature named and the signature made. An ACK
      that is recorded already leaves none. */
  lemma RowsWrittenOut(h: string -> string, hex: string -> string, ops: seq<Op>, ch: string, data: string,
                       prevSig: string, sig: string)
    requires SendsOnly(ops, ch) && forall x :: h(x) != ""
    ensures var rows, before := Run(h, hex, [], ops), Tail(h, Payloads(ops));
      var c, hash := OfChannel(rows, ch), h(data + before);
      && OfChannel(Next(h, hex, rows, Build(ch, data, prevSig)), ch)
         == c + [Row(ch, hash, before, prevSig, hex(hash + prevSig))]
      && OfChannel(Next(h, hex, rows, Record(ch, data, sig)), ch)
         == c + [Row(ch, hash, before, if c == [] then "" else c[|c| - 1].sig, sig)]
      && OfChannel(Next(h, hex, rows, Receive(ch, data, prevSig, sig)), ch)
         == c + [Row(ch, data, before, prevSig, sig)]
      && OfChannel(Next(h, hex, rows, Ack(ch, prevSig, sig)), ch)
         == c + (if exists r :: r in c && r.dataHash == "" && r.prevSig == prevSig then []
                 else [Row(ch, "", "", prevSig, sig)])
  {
    hide Run, Tail, OfChannel, LastHash, Next;
    var rows := Run(h, hex, [], ops);
    HashesAreFold(h, hex, ops, ch);
    LastHashIsTail(h, OfChannel(rows, ch), Payloads(ops));
    NextOnChannel(h, hex, rows, Build(ch, data, prevSig), ch);
    NextOnChannel(h, hex, rows, Record(ch, data, sig), ch);
    NextOnChannel(h, hex, rows, Receive(ch, data, prevSig, sig), ch);
    NextOnChannel(h, hex, rows, Ack(ch, prevSig, sig), ch);
  }

  // ------------------------------------------------------------------------------------------
  // What the last hash tells about the history
  // ------------------------------------------------------------------------------------------

  /** The strings hashed on the way. */
  function Inputs(h: string -> string, ds: seq<string>): set<string> {
    if ds == [] then {}
    else Inputs(h, ds[..|ds| - 1]) + {ds[|ds| - 1] + Tail(h, ds[..|ds| - 1])}
  }

  /** On the inputs in question the hash has no collision and one output length. */
  predicate Sound(h: string -> string, inputs: set<string>) {
    forall x, y | x in inputs && y in inputs :: (h(x) == h(y) ==> x == y) && |h(x)| == |h(y)|
  }

  lemma TailIsHash(h: string -> string, ds: seq<string>) returns (x: string)
    requires ds != []
    ensures x in Inputs(h, ds) && Tail(h, ds) == h(x) && x == ds[|ds| - 1] + Tail(h, ds[..|ds| - 1])
  {
    x := ds[|ds| - 1] + Tail(h, ds[..|ds| - 1]);
  }

  lemma SameEnd(d: string, t: string, e: string, u: string)
    requires d + t == e + u && |t| == |u|
    ensures d == e && t == u
  {
    assert (d + t)[..|d|] == d && (e + u)[..|e|] == e && (d + t)[|d|..] == t && (e + u)[|e|..] == u;
  }

  /** Two histories end in the same hash exactly when the shorter one is the end of the longer one,
      with the longer one's earlier hash glued to its first payload. */
  lemma {:induction false} SameTailExactly(h: string -> string, ds: seq<string>, es: seq<string>)
    requires 0 < |es| <= |ds| && Sound(h, Inputs(h, ds) + Inputs(h, es))
    ensures var k := |ds| - |es|;
      Tail(h, ds) == Tail(h, es) <==> es[0] == ds[k] + Tail(h, ds[..k]) && es[1..] == ds[k + 1..]
  {
    hide Sound, Inputs, Tail;
    var k, n, m := |ds| - |es|, |ds| - 1, |es| - 1;
    if m == 0 {
      LastOnly(h, ds, es);
      assert es[1..] == [] == ds[k + 1..];
    } else {
      var dd, ee := ds[..n], es[..m];
      FrontsAreSound(h, ds, es);
      SameTailExactly(h, dd, ee);
      LastStep(h, ds, es);
      assert dd[..k] == ds[..k];
      EndsAgree(ds, es, k);
    }
  }

  lemma FrontsAreSound(h: string -> string, ds: seq<string>, es: seq<string>)
    requires ds != [] && es != [] && Sound(h, Inputs(h, ds) + Inputs(h, es))
    ensures Sound(h, Inputs(h, ds[..|ds| - 1]) + Inputs(h, es[..|es| - 1]))
  {
    hide Tail;
  }

  lemma LastOnly(h: string -> string, ds: seq<string>, es: seq<string>)
    requires |es| == 1 && ds != [] && Sound(h, Inputs(h, ds) + Inputs(h, es))
    ensures Tail(h, ds) == Tail(h, es) <==> es[0] == ds[|ds| - 1] + Tail(h, ds[..|ds| - 1])
  {
    var x := TailIsHash(h, ds);
    var y := TailIsHash(h, es);
    assert es[..0] == [] && y == es[0];
  }

  /** Equal ends have equal last payloads and equal ends before them. */
  lemma LastStep(h: string -> string, ds: seq<string>, es: seq<string>)
    requires |ds| >= 2 && |es| >= 2 && Sound(h, Inputs(h, ds) + Inputs(h, es))
    ensures var dd, ee := ds[..|ds| - 1], es[..|es| - 1];
      Tail(h, ds) == Tail(h, es) <==> ds[|ds| - 1] == es[|es| - 1] && Tail(h, dd) == Tail(h, ee)
  {
    var dd, ee := ds[..|ds| - 1], es[..|es| - 1];
    var x := TailIsHash(h, ds);
    var y := TailIsHash(h, es);
    var v := TailIsHash(h, dd);
    var w := TailIsHash(h, ee);
    assert v in Inputs(h, ds) && w in Inputs(h, es);
    if Tail(h, ds) == Tail(h, es) {
      assert |h(v)| == |h(w)|;
      hide *;
      SameEnd(ds[|ds| - 1], Tail(h, dd), es[|es| - 1], Tail(h, ee));
    }
  }

  lemma EndsAgree(ds: seq<string>, es: seq<string>, k: nat)
    requires |es| >= 2 && k == |ds| - |es|
    ensures var n, m := |ds| - 1, |es| - 1;
      es[1..] == ds[k + 1..] <==> es[m] == ds[n] && es[..m][1..] == ds[..n][k + 1..]
  {
    var n, m := |ds| - 1, |es| - 1;
    assert es[1..] == es[..m][1..] + [es[m]] && ds[k + 1..] == ds[..n][k + 1..] + [ds[n]];
    if es[1..] == ds[k + 1..] {
      assert es[m] == es[1..][m - 1] && ds[n] == ds[k + 1..][m - 1];
      assert es[..m][1..] == es[1..][..m - 1] && ds[..n][k + 1..] == ds[k + 1..][..m - 1];
    }
  }

  /** So the last hash fixes the history among histories of the same length. */
  lemma {:induction false} TailFixesHistory(h: string -> string, ds: seq<string>, es: seq<string>)
    requires |ds| == |es| && Sound(h, Inputs(h, ds) + Inputs(h, es))
    ensures Tail(h, ds) == Tail(h, es) <==> ds == es
  {
    if ds != [] {
      SameTailExactly(h, ds, es);
      assert ds[..0] == [] && Tail(h, ds[..0]) == "";
      hide *;
      assert ds == [ds[0]] + ds[1..] && es == [es[0]] + es[1..];
      assert ds[0] + "" == ds[0];
    }
  }

  /** And only among those: gluing a hash to a payload gives a shorter history with the same end. */
  lemma ShorterHistoryWithSameTail(h: string -> string, ds: seq<string>, d: string)
    requires ds != []
    ensures Tail(h, ds + [d]) == Tail(h, [d + Tail(h, ds)])
  {
    HashChainGrows(h, ds, d);
    var e := d + Tail(h, ds);
    assert [e][..0] == [];
    assert Tail(h, [e]) == h(e + "");
    assert e + "" == e;
  }

  // ------------------------------------------------------------------------------------------
  // ACK rows are not doubled: the connector
  // ------------------------------------------------------------------------------------------

  /** Of the ACK rows, one position before `limit` and a later one never agree on the signature. */
  predicate AcksDiffer(c: seq<Row>, limit: nat) {
    forall i, j | 0 <= i < j < |c| && i < limit && IsAck(c[i]) && IsAck(c[j]) :: c[i].prevSig != c[j].prevSig
  }

  lemma AcksDifferGrows(c: seq<Row>, r: Row, limit: nat)
    requires AcksDiffer(c, limit)
    ensures AcksDiffer(c + [r], limit) <==>
      !IsAck(r) || !HasAck(if |c| < limit then c else c[..limit], r.prevSig)
  {
    var d := c + [r];
    assert d[|c|] == r && forall i | 0 <= i < |c| :: d[i] == c[i];
    var first := if |c| < limit then c else c[..limit];
    assert forall i | 0 <= i < |first| :: first[i] == c[i];
    if IsAck(r) && AcksDiffer(d, limit) {
      forall i | 0 <= i < |first| && IsAck(first[i])
        ensures first[i].prevSig != r.prevSig
      {
        assert d[i] == first[i];
      }
    }
  }

  /** In every store a connector can reach, no two ACK rows of a channel answer the same signature. */
  lemma {:induction false} ConnectorAcksUnique(h: string -> string, hex: string -> string, ops: seq<Op>, ch: string)
    requires forall x :: h(x) != ""
    requires forall i | 0 <= i < |ops| && ops[i].Receive? :: ops[i].dataHash != ""
    ensures var c := OfChannel(Run(h, hex, [], ops), ch); AcksDiffer(c, |c|)
  {
    if ops != [] {
      var before, op := ops[..|ops| - 1], ops[|ops| - 1];
      ConnectorAcksUnique(h, hex, before, ch);
      var now := Run(h, hex, [], before);
      var c := OfChannel(now, ch);
      NextOnChannel(h, hex, now, op, ch);
      var n := if op.ch == ch then NewRow(h, hex, c, op) else [];
      if n != [] {
        assert n == [n[0]] && (IsAck(n[0]) ==> !HasAck(c, n[0].prevSig));
        assert c[..|c|] == c;
        AcksDifferGrows(c, n[0], |c|);
      } else {
        assert c + n == c;
      }
      hide NewRow, OfChannel, HasAck;
    }
  }

  // ------------------------------------------------------------------------------------------
  // ACK rows are not doubled: the kernel
  // ------------------------------------------------------------------------------------------

  const LIMIT: nat := 100

  function First(c: seq<Row>): seq<Row> {
    if |c| <= LIMIT then c else c[..LIMIT]
  }

  /** RecordAck compares with the first 100 rows of the channel only. */
  function KernelAck(rows: seq<Row>, ch: string, prevSig: string, sig: string): seq<Row> {
    if HasAck(First(OfChannel(rows, ch)), prevSig) then rows else rows + [AckRow(ch, prevSig, sig)]
  }

  class KernelChain {
    var rows: seq<Row>

    constructor ()
      ensures rows == []
    {
      rows := [];
    }

    method RecordDataHash(ch: string, dataHash: string, prevHash: string, prevSig: string, sig: string)
      modifies `rows
      ensures rows == old(rows) + [Row(ch, dataHash, prevHash, prevSig, sig)]
    {
      rows := rows + [Row(ch, dataHash, prevHash, prevSig, sig)];
    }

    method RecordAck(ch: string, prevSig: string, sig: string)
      modifies `rows
      ensures rows == KernelAck(old(rows), ch, prevSig, sig)
    {
      var known := ScanAcks(First(OfChannel(rows, ch)), prevSig);
      if !known {
        rows := rows + [Row(ch, "", "", prevSig, sig)];
      }
    }

    method GetLastDataHash(ch: string) returns (dataHash: string)
      ensures dataHash == LastHash(OfChannel(rows, ch))
    {
      dataHash := LastHash(OfChannel(rows, ch));
    }
  }

  datatype KernelOp = KData(row: Row) | KAck(ch: string, prevSig: string, sig: string)

  function KernelRun(ops: seq<KernelOp>): seq<Row> {
    if ops == [] then []
    else
      var rows := KernelRun(ops[..|ops| - 1]);
      match ops[|ops| - 1]
      case KData(r) => rows + [r]
      case KAck(ch, prevSig, sig) => KernelAck(rows, ch, prevSig, sig)
  }

  /** In every store a kernel can reach, an ACK among the first 100 rows of a channel has no second
      copy anywhere in the channel. */
  lemma {:induction false} EarlyKernelAcksUnique(ops: seq<KernelOp>, ch: string)
    requires forall i | 0 <= i < |ops| && ops[i].KData? :: !IsAck(ops[i].row)
    ensures AcksDiffer(OfChannel(KernelRun(ops), ch), 100)
  {
    if ops != [] {
      var before, op := ops[..|ops| - 1], ops[|ops| - 1];
      EarlyKernelAcksUnique(before, ch);
      var rows, now := KernelRun(before), KernelRun(ops);
      if now != rows {
        var r := now[|rows|];
        assert now == rows + [r];
        OfChannelAppend(rows, r, ch);
        AcksDifferGrows(OfChannel(rows, ch), r, LIMIT);
        assert OfChannel(rows, ch) + [] == OfChannel(rows, ch);
      }
    }
  }

  /** A repeated ACK is recorded a second time exactly when the first copy, and every other, stands
      beyond the first 100 rows of the channel. */
  lemma LateAckRecordedAgain(rows: seq<Row>, ch: string, prevSig: string, sig: string)
    requires HasAck(OfChannel(rows, ch), prevSig)
    ensures var c, after := OfChannel(rows, ch), KernelAck(rows, ch, prevSig, sig);
      OfChannel(after, ch) == c + [AckRow(ch, prevSig, sig)] <==>
        forall i | 0 <= i < |c| && IsAck(c[i]) && c[i].prevSig == prevSig :: i >= 100
  {
    var c := OfChannel(rows, ch);
    assert forall i | 0 <= i < |First(c)| :: First(c)[i] == c[i];
    assert forall i | 0 <= i < |c| && i < LIMIT :: i < |First(c)| && c[i] == First(c)[i];
    OfChannelAppend(rows, AckRow(ch, prevSig, sig), ch);
    assert |c + [AckRow(ch, prevSig, sig)]| != |c|;
    if HasAck(First(c), prevSig) {
      var i :| 0 <= i < |First(c)| && IsAck(First(c)[i]) && First(c)[i].prevSig == prevSig;
      assert IsAck(c[i]) && c[i].prevSig == prevSig && i < LIMIT;
    }
  }

  function DataOps(rows: seq<Row>): seq<KernelOp> {
    seq(|rows|, i requires 0 <= i < |rows| => KData(rows[i]))
  }

  lemma {:induction false} DataRun(rows: seq<Row>, ch: string)
    requires forall i | 0 <= i < |rows| :: rows[i].channel == ch
    ensures KernelRun(DataOps(rows)) == rows && OfChannel(rows, ch) == rows
  {
    if rows != [] {
      var n := |rows| - 1;
      DataRun(rows[..n], ch);
      assert DataOps(rows)[..n] == DataOps(rows[..n]);
      assert rows == rows[..n] + [rows[n]];
    }
  }

  /** An ACK that is new to the first 100 rows is appended. */
  lemma AckAppended(rows: seq<Row>, c: seq<Row>, ch: string, prevSig: string, sig: string)
    requires OfChannel(rows, ch) == c && !HasAck(First(c), prevSig)
    ensures var after := KernelAck(rows, ch, prevSig, sig);
      after == rows + [AckRow(ch, prevSig, sig)] && OfChannel(after, ch) == c + [AckRow(ch, prevSig, sig)]
  {
    OfChannelAppend(rows, AckRow(ch, prevSig, sig), ch);
  }

  /** Stores in which an ACK is recorded twice are reachable: after any 100 or more data rows of a channel,
      an ACK and its repetition leave two ACK rows for one signature. */
  lemma LateAckIsDoubled(rows: seq<Row>, ch: string, prevSig: string, sig: string, again: string)
    requires |rows| >= 100 && forall i | 0 <= i < |rows| :: rows[i].channel == ch && !IsAck(rows[i])
    ensures OfChannel(KernelRun(DataOps(rows) + [KAck(ch, prevSig, sig), KAck(ch, prevSig, again)]), ch)
         == rows + [AckRow(ch, prevSig, sig), AckRow(ch, prevSig, again)]
  {
    hide OfChannel, KernelAck;
    var ops, one, two := DataOps(rows), KAck(ch, prevSig, sig), KAck(ch, prevSig, again);
    var all, row := ops + [one, two], AckRow(ch, prevSig, sig);
    DataRun(rows, ch);
    assert all[..|all| - 1] == ops + [one] && (ops + [one])[..|ops|] == ops;
    assert KernelRun(ops + [one]) == KernelAck(rows, ch, prevSig, sig);
    AckAppended(rows, rows, ch, prevSig, sig);
    assert First(rows + [row]) == rows[..LIMIT];
    AckAppended(rows + [row], rows + [row], ch, prevSig, again);
    assert rows + [row] + [AckRow(ch, prevSig, again)] == rows + [row, AckRow(ch, prevSig, again)];
  }
}
