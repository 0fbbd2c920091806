/** The business data chain kept by every node: data rows linked by hashes, and ACK rows, whose data
    hash is empty. Connectors keep it with `connector/database/hash_chain.go` and the recording methods
    of `connector/client/connector.go`, kernels with `kernel/server/business_chain_manager.go`. A store
    is the sequence of its rows over all channels; hashing and the connector's hex rendering are
    function values; RSA signatures, which are randomised, are parameters. */
module BusinessChain {

  datatype Row = Row(channel: string, dataHash: string, prevHash: string, prevSig: string, sig: string)

  predicate IsAck(r: Row) {
    r.dataHash == ""
  }

  /** GetRecordsByChannel: the rows of one channel in order. */
  function OfChannel(rows: seq<Row>, ch: string): seq<Row> {
    if rows == [] then []
    else
      var before, r := OfChannel(rows[..|rows| - 1], ch), rows[|rows| - 1];
      if r.channel == ch then before + [r] else before
  }

  /** The data hash of the last data row of a channel, "" if there is none. */
  function LastHash(c: seq<Row>): string {
    if c == [] then ""
    else if IsAck(c[|c| - 1]) then LastHash(c[..|c| - 1])
    else c[|c| - 1].dataHash
  }

  /** The signature of the last row of a channel, ACK rows included. */
  function LastSig(c: seq<Row>): string {
    if c == [] then "" else c[|c| - 1].sig
  }

  function DataRow(ch: string, c: seq<Row>, dataHash: string, prevSig: string, sig: string): Row {
    Row(ch, dataHash, LastHash(c), prevSig, sig)
  }

  function AckRow(ch: string, prevSig: string, sig: string): Row {
    Row(ch, "", "", prevSig, sig)
  }

  predicate HasAck(c: seq<Row>, prevSig: string) {
    exists i :: 0 <= i < |c| && IsAck(c[i]) && c[i].prevSig == prevSig
  }

  /** Every data row after position 0 names the hash of the nearest data row before it. */
  predicate Linked(c: seq<Row>) {
    forall i | 0 < i < |c| && !IsAck(c[i]) :: c[i].prevHash == LastHash(c[..i])
  }

  // ------------------------------------------------------------------------------------------
  // The connector's store
  // ------------------------------------------------------------------------------------------

  datatype Op =
    | Build(ch: string, data: string, prevSig: string)                 // BuildAndSignDataHash, ReceiveAndSign
    | Ack(ch: string, prevSig: string, sig: string)                    // HandleAck
    | Record(ch: string, data: string, sig: string)                    // connectorRecordBusinessData
    | Receive(ch: string, dataHash: string, prevSig: string, sig: string)  // connectorReceiveBusinessData

  /** The row an operation adds to its channel, if any. */
  function NewRow(h: string -> string, hex: string -> string, c: seq<Row>, op: Op): seq<Row> {
    match op
    case Build(ch, data, prevSig) =>
      var dataHash := h(data + LastHash(c));
      [DataRow(ch, c, dataHash, prevSig, hex(dataHash + prevSig))]
    case Ack(ch, prevSig, sig) => if HasAck(c, prevSig) then [] else [AckRow(ch, prevSig, sig)]
    case Record(ch, data, sig) => [DataRow(ch, c, h(data + LastHash(c)), LastSig(c), sig)]
    case Receive(ch, dataHash, prevSig, sig) => [DataRow(ch, c, dataHash, prevSig, sig)]
  }

  function Next(h: string -> string, hex: string -> string, rows: seq<Row>, op: Op): seq<Row> {
    rows + NewRow(h, hex, OfChannel(rows, op.ch), op)
  }

  class BusinessChainManager {
    const h: string -> string
    const hex: string -> string
    var rows: seq<Row>

    constructor (hash: string -> string, encode: string -> string)
      ensures h == hash && hex == encode && rows == []
    {
      h, hex, rows := hash, encode, [];
    }

    method BuildAndSignDataHash(data: string, ch: string, prevSig: string) returns (dataHash: string, sig: string)
      modifies `rows
      ensures rows == Next(h, hex, old(rows), Build(ch, data, prevSig))
      ensures dataHash == rows[|rows| - 1].dataHash && sig == rows[|rows| - 1].sig
    {
      var prevHash := LastHash(OfChannel(rows, ch));
      dataHash := h(data + prevHash);
      sig := hex(dataHash + prevSig);
      rows := rows + [Row(ch, dataHash, prevHash, prevSig, sig)];
    }

    method ReceiveAndSign(data: string, ch: string, sourceSig: string) returns (sig: string)
      modifies `rows
      ensures rows == Next(h, hex, old(rows), Build(ch, data, sourceSig))
      ensures sig == rows[|rows| - 1].sig
    {
      var prevHash := LastHash(OfChannel(rows, ch));
      var dataHash := h(data + prevHash);
      sig := hex(dataHash + sourceSig);
      rows := rows + [Row(ch, dataHash, prevHash, sourceSig, sig)];
    }

    method HandleAck(ch: string, prevSig: string, sig: string)
      modifies `rows
      ensures rows == Next(h, hex, old(rows), Ack(ch, prevSig, sig))
    {
      var known := ScanAcks(OfChannel(rows, ch), prevSig);
      if !known {
        rows := rows + [Row(ch, "", "", prevSig, sig)];
      }
    }

    method GetLastDataHash(ch: string) returns (dataHash: string)
      ensures dataHash == LastHash(OfChannel(rows, ch))
    {
      dataHash := LastHash(OfChannel(rows, ch));
    }

    method RecordChainData(ch: string, dataHash: string, prevHash: string, prevSig: string, sig: string)
      modifies `rows
      ensures rows == old(rows) + [Row(ch, dataHash, prevHash, prevSig, sig)]
    {
      rows := rows + [Row(ch, dataHash, prevHash, prevSig, sig)];
    }

    /** connectorRecordBusinessData; `sig` is the signature made of the new hash. */
    method RecordBusinessData(ch: string, data: string, sig: string) returns (dataHash: string)
      modifies `rows
      ensures rows == Next(h, hex, old(rows), Record(ch, data, sig))
      ensures dataHash == rows[|rows| - 1].dataHash
    {
      var prevHash := GetLastDataHash(ch);
      var prevSig := LastSig(OfChannel(rows, ch));
      if prevHash != "" {
        dataHash := h(data + prevHash);
      } else {
        dataHash := h(data);
        assert data + prevHash == data;
      }
      RecordChainData(ch, dataHash, prevHash, prevSig, sig);
    }

    /** connectorReceiveBusinessData */
    method ReceiveBusinessData(ch: string, dataHash: string, prevSig: string, sig: string)
      modifies `rows
      ensures rows == Next(h, hex, old(rows), Receive(ch, dataHash, prevSig, sig))
    {
      var prevHash := GetLastDataHash(ch);
      RecordChainData(ch, dataHash, prevHash, prevSig, sig);
    }

    method VerifyChain(ch: string) returns (ok: bool)
      ensures ok == Linked(OfChannel(rows, ch))
    {
      var c := OfChannel(rows, ch);
      for i := 0 to |c|
        invariant forall k | 0 < k < i && !IsAck(c[k]) :: c[k].prevHash == LastHash(c[..k])
      {
        if c[i].dataHash == "" || i == 0 {
          continue;
        }
        var prev := c[i - 1];
        if prev.dataHash == "" {
          prev := SearchBack(c, i);
        }
        assert c[..i][..i - 1] == c[..i - 1];
        assert prev.dataHash == LastHash(c[..i]);
        if c[i].prevHash != prev.dataHash {
          return false;
        }
      }
      return true;
    }
  }

  method ScanAcks(c: seq<Row>, prevSig: string) returns (known: bool)
    ensures known == HasAck(c, prevSig)
  {
    for i := 0 to |c|
      invariant !HasAck(c[..i], prevSig)
    {
      if c[i].dataHash == "" && c[i].prevSig == prevSig {
        return true;
      }
    }
    assert c[..|c|] == c;
    return false;
  }

  lemma LastHashSkips(c: seq<Row>, i: nat)
    requires 0 < i <= |c| && IsAck(c[i - 1])
    ensures LastHash(c[..i]) == LastHash(c[..i - 1])
  {
    assert c[..i][..i - 1] == c[..i - 1];
  }

  /** The row whose hash position i must name, when an ACK row stands right before it. */
  method SearchBack(c: seq<Row>, i: nat) returns (prev: Row)
    requires 0 < i < |c| && IsAck(c[i - 1])
    ensures prev.dataHash == LastHash(c[..i])
  {
    prev := c[i - 1];
    LastHashSkips(c, i);
    var j := i - 2;
    while j >= 0
      invariant -1 <= j < i - 1 && prev.dataHash == ""
      invariant LastHash(c[..i]) == LastHash(c[..j + 1])
    {
      if c[j].dataHash != "" {
        return c[j];
      }
      LastHashSkips(c, j + 1);
      j := j - 1;
    }
  }

  // ------------------------------------------------------------------------------------------
  // Any interleaving verifies, on every channel
  // ------------------------------------------------------------------------------------------

  function Run(h: string -> string, hex: string -> string, rows: seq<Row>, ops: seq<Op>): seq<Row> {
    if ops == [] then rows
    else Next(h, hex, Run(h, hex, rows, ops[..|ops| - 1]), ops[|ops| - 1])
  }

  function OpsOn(ops: seq<Op>, ch: string): seq<Op> {
    if ops == [] then []
    else
      var before, op := OpsOn(ops[..|ops| - 1], ch), ops[|ops| - 1];
      if op.ch == ch then before + [op] else before
  }

  lemma OfChannelAppend(rows: seq<Row>, r: Row, ch: string)
    ensures OfChannel(rows + [r], ch) == OfChannel(rows, ch) + if r.channel == ch then [r] else []
  {
    assert (rows + [r])[..|rows|] == rows;
  }

  lemma NewRowChannel(h: string -> string, hex: string -> string, c: seq<Row>, op: Op)
    ensures var n := NewRow(h, hex, c, op); n == [] || (|n| == 1 && n[0].channel == op.ch)
  {
  }

  lemma NextOnChannel(h: string -> string, hex: string -> string, rows: seq<Row>, op: Op, ch: string)
    ensures OfChannel(Next(h, hex, rows, op), ch)
         == OfChannel(rows, ch) + if op.ch == ch then NewRow(h, hex, OfChannel(rows, ch), op) else []
  {
    var n := NewRow(h, hex, OfChannel(rows, op.ch), op);
    NewRowChannel(h, hex, OfChannel(rows, op.ch), op);
    hide NewRow;
    if n == [] {
      assert rows + n == rows;
    } else {
      assert n == [n[0]];
      OfChannelAppend(rows, n[0], ch);
    }
  }

  lemma {:induction false} OfChannelIdempotent(rows: seq<Row>, ch: string)
    ensures OfChannel(OfChannel(rows, ch), ch) == OfChannel(rows, ch)
  {
    if rows != [] {
      OfChannelIdempotent(rows[..|rows| - 1], ch);
      if rows[|rows| - 1].channel == ch {
        OfChannelAppend(OfChannel(rows[..|rows| - 1], ch), rows[|rows| - 1], ch);
      }
    }
  }

  /** Channels sharing a store do not disturb each other: what a run leaves in a channel is what that
      channel's own operations would have left in a store of its own. */
  lemma {:induction false} ChannelsAreIndependent(h: string -> string, hex: string -> string, rows: seq<Row>,
                                                  ops: seq<Op>, ch: string)
    ensures OfChannel(Run(h, hex, rows, ops), ch)
         == OfChannel(Run(h, hex, OfChannel(rows, ch), OpsOn(ops, ch)), ch)
  {
    if ops == [] {
      OfChannelIdempotent(rows, ch);
    } else {
      var before, op := ops[..|ops| - 1], ops[|ops| - 1];
      ChannelsAreIndependent(h, hex, rows, before, ch);
      NextOnChannel(h, hex, Run(h, hex, rows, before), op, ch);
      if op.ch == ch {
        var own := OpsOn(before, ch);
        assert (own + [op])[..|own|] == own;
        NextOnChannel(h, hex, Run(h, hex, OfChannel(rows, ch), own), op, ch);
      }
      hide NewRow;
    }
  }

  lemma LinkedGrows(c: seq<Row>, r: Row)
    requires Linked(c) && (IsAck(r) || c == [] || r.prevHash == LastHash(c))
    ensures Linked(c + [r])
  {
    var d := c + [r];
    assert d[..|c|] == c;
    forall i | 0 < i < |d| && !IsAck(d[i])
      ensures d[i].prevHash == LastHash(d[..i])
    {
      if i < |c| {
        assert d[..i] == c[..i] && d[i] == c[i];
      }
    }
  }

  lemma NextKeepsLinked(h: string -> string, hex: string -> string, c: seq<Row>, op: Op)
    requires Linked(c)
    ensures Linked(c + NewRow(h, hex, c, op))
  {
    var n := NewRow(h, hex, c, op);
    if n == [] {
      assert c + n == c;
    } else {
      assert n == [n[0]] && (IsAck(n[0]) || n[0].prevHash == LastHash(c));
      hide NewRow, LastHash, Linked;
      LinkedGrows(c, n[0]);
    }
  }

  /** However operations on many channels are interleaved, VerifyChain accepts every channel after
      them that it accepted before. */
  lemma {:induction false} RunVerifies(h: string -> string, hex: string -> string, rows: seq<Row>, ops: seq<Op>,
                                       ch: string)
    requires Linked(OfChannel(rows, ch))
    ensures Linked(OfChannel(Run(h, hex, rows, ops), ch))
  {
    if ops != [] {
      var before, op := ops[..|ops| - 1], ops[|ops| - 1];
      RunVerifies(h, hex, rows, before, ch);
      var now := Run(h, hex, rows, before);
      NextOnChannel(h, hex, now, op, ch);
      hide Linked, NewRow;
      if op.ch == ch {
        NextKeepsLinked(h, hex, OfChannel(now, ch), op);
      } else {
        assert OfChannel(now, ch) + [] == OfChannel(now, ch);
      }
    }
  }

  // ------------------------------------------------------------------------------------------
  // ACK rows play no part
  // ------------------------------------------------------------------------------------------

  function DataRows(c: seq<Row>): (d: seq<Row>)
    ensures forall i | 0 <= i < |d| :: !IsAck(d[i])
  {
    if c == [] then []
    else
      var before, r := DataRows(c[..|c| - 1]), c[|c| - 1];
      if IsAck(r) then before else before + [r]
  }

  /** A chain of data rows alone: each names the hash of the one before it, and the first may name
      anything exactly when it opened the channel. */
  predicate DataLinked(d: seq<Row>, first: bool) {
    && (forall i | 0 < i < |d| :: d[i].prevHash == d[i - 1].dataHash)
    && (d != [] && !first ==> d[0].prevHash == "")
  }

  lemma {:induction false} LastHashOfData(c: seq<Row>)
    ensures LastHash(c) == if DataRows(c) == [] then "" else DataRows(c)[|DataRows(c)| - 1].dataHash
  {
    if c != [] {
      LastHashOfData(c[..|c| - 1]);
    }
  }

  lemma LinkedOfPrefix(c: seq<Row>)
    requires c != []
    ensures var b, r := c[..|c| - 1], c[|c| - 1];
      Linked(c) <==> Linked(b) && (IsAck(r) || b == [] || r.prevHash == LastHash(b))
  {
    var b, r := c[..|c| - 1], c[|c| - 1];
    assert c == b + [r];
    if Linked(b) && (IsAck(r) || b == [] || r.prevHash == LastHash(b)) {
      LinkedGrows(b, r);
    }
    if Linked(c) {
      forall i | 0 < i < |b| && !IsAck(b[i])
        ensures b[i].prevHash == LastHash(b[..i])
      {
        assert c[i] == b[i] && c[..i] == b[..i];
      }
    }
  }

  lemma DataLinkedGrows(d: seq<Row>, r: Row, first: bool)
    requires d != []
    ensures DataLinked(d + [r], first) <==> DataLinked(d, first) && r.prevHash == d[|d| - 1].dataHash
  {
    var e := d + [r];
    assert e[|d|] == r && e[|d| - 1] == d[|d| - 1];
    assert forall i | 0 <= i < |d| :: e[i] == d[i];
  }

  lemma {:induction false} OpenedByData(c: seq<Row>)
    requires c != [] && DataRows(c[..|c| - 1]) == []
    ensures c[..|c| - 1] == [] || IsAck(c[0])
  {
    var b := c[..|c| - 1];
    if |b| > 1 {
      OpenedByData(b);
    }
  }

  /** VerifyChain's verdict is the verdict on the data rows alone. */
  lemma {:induction false} AcksPlayNoPart(c: seq<Row>)
    ensures Linked(c) <==> DataLinked(DataRows(c), c != [] && !IsAck(c[0]))
  {
    if c != [] {
      var b, r := c[..|c| - 1], c[|c| - 1];
      AcksPlayNoPart(b);
      LinkedOfPrefix(c);
      LastHashOfData(b);
      if DataRows(b) == [] {
        OpenedByData(c);
      } else if !IsAck(r) {
        DataLinkedGrows(DataRows(b), r, !IsAck(c[0]));
      }
      hide Linked;
    }
  }
}
