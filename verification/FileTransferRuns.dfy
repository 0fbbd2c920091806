/** Whole runs of the file receiver: chunks in any order and interleaved with other transfers. */
module FileTransferRuns {
  import opened Wrappers
  import opened FileTransfer

  /** A message, with the parameter of an end message. */
  datatype Arrival = Arrival(msg: Msg, recent: bool)

  function Step(h: bytes -> string, s: State, a: Arrival): (State, Outcome) {
    match a.msg
    case Header(_, _, _, _, _) => (OnHeader(s, a.msg), Quiet)
    case Chunk(_, _, _, _) => OnChunk(h, s, a.msg)
    case End(_, _) => OnEnd(h, s, a.msg, a.recent)
  }

  function Run(h: bytes -> string, s: State, ms: seq<Arrival>): State {
    if ms == [] then s else Step(h, Run(h, s, ms[..|ms| - 1]), ms[|ms| - 1]).0
  }

  /** What the last message of a run leads to. */
  function Last(h: bytes -> string, s: State, ms: seq<Arrival>): Outcome
    requires ms != []
  {
    Step(h, Run(h, s, ms[..|ms| - 1]), ms[|ms| - 1]).1
  }

  // ------------------------------------------------------------------------------------------
  // A file that is assembled has the announced hash
  // ------------------------------------------------------------------------------------------

  /** The latest header of a transfer. */
  function Announced(ms: seq<Arrival>, id: string): Option<Msg> {
    if ms == [] then None
    else
      var m := ms[|ms| - 1].msg;
      if m.Header? && m.id == id then Some(m) else Announced(ms[..|ms| - 1], id)
  }

  predicate Matches(t: Transfer, o: Option<Msg>) {
    o.Some? && o.value.Header? && t.hash == o.value.hash && t.name == o.value.name && t.total == o.value.total
  }

  lemma StepKeepsHeaders(h: bytes -> string, s: State, a: Arrival, id: string)
    requires id in Step(h, s, a).0.transfers
    ensures var t := Step(h, s, a).0.transfers[id];
      if a.msg.Header? && a.msg.id == id then Matches(t, Some(a.msg))
      else id in s.transfers && t.hash == s.transfers[id].hash && t.name == s.transfers[id].name
           && t.total == s.transfers[id].total
  {
    hide FirstMissing, Glued;
  }

  lemma {:induction false} TransfersAreAnnounced(h: bytes -> string, ms: seq<Arrival>, id: string)
    requires id in Run(h, State(map[], map[]), ms).transfers
    ensures Matches(Run(h, State(map[], map[]), ms).transfers[id], Announced(ms, id))
  {
    if ms != [] {
      hide Step;
      StepKeepsHeaders(h, Run(h, State(map[], map[]), ms[..|ms| - 1]), ms[|ms| - 1], id);
      var a := ms[|ms| - 1];
      if !(a.msg.Header? && a.msg.id == id) {
        TransfersAreAnnounced(h, ms[..|ms| - 1], id);
      }
    }
  }

  lemma AssembledMatches(h: bytes -> string, s: State, a: Arrival)
    requires Step(h, s, a).1.Assembled?
    ensures var o := Step(h, s, a).1;
      && o.id in s.transfers && o.id == a.msg.id && !a.msg.Header?
      && h(o.content) == s.transfers[o.id].hash && o.name == s.transfers[o.id].name
      && o.name in Step(h, s, a).0.files && Step(h, s, a).0.files[o.name] == o.content
      && o.id !in Step(h, s, a).0.transfers
  {
    hide FirstMissing, Glued;
  }

  /** In any run at all, a file is reported only with the name and the hash of its latest header, and it
      is on disk with that content. */
  lemma AssembledAsAnnounced(h: bytes -> string, ms: seq<Arrival>)
    requires ms != [] && Last(h, State(map[], map[]), ms).Assembled?
    ensures var o := Last(h, State(map[], map[]), ms);
      var header, files := Announced(ms, o.id), Run(h, State(map[], map[]), ms).files;
      && header.Some? && header.value.Header? && h(o.content) == header.value.hash && o.name == header.value.name
      && o.name in files && files[o.name] == o.content
  {
    hide Step;
    var before, a := ms[..|ms| - 1], ms[|ms| - 1];
    AssembledMatches(h, Run(h, State(map[], map[]), before), a);
    TransfersAreAnnounced(h, before, a.msg.id);
  }

  // ------------------------------------------------------------------------------------------
  // Gluing the pieces of a file gives the file
  // ------------------------------------------------------------------------------------------

  lemma UptoRises(c: bytes, n: nat)
    ensures Upto(c, n) <= Upto(c, n + 1)
  {
  }

  lemma Joined(c: bytes, u: nat, v: nat)
    requires u <= v <= |c|
    ensures c[..u] + c[u..v] == c[..v]
  {
  }

  lemma {:induction false} GluedPieces(c: bytes, chunks: map<int, bytes>, n: nat)
    requires forall i | 0 <= i < n :: i in chunks && chunks[i] == Piece(c, i)
    ensures Glued(chunks, n) == c[..Upto(c, n)]
  {
    if n == 0 {
      assert Upto(c, 0) == 0;
    } else {
      hide Upto;
      GluedPieces(c, chunks, n - 1);
      UptoRises(c, n - 1);
      Joined(c, Upto(c, n - 1), Upto(c, n));
    }
  }

  lemma AllPieces(c: bytes, chunks: map<int, bytes>)
    requires forall i | 0 <= i < Total(c) :: i in chunks && chunks[i] == Piece(c, i)
    ensures Glued(chunks, Total(c)) == c
  {
    GluedPieces(c, chunks, Total(c));
    assert Upto(c, Total(c)) == |c|;
    assert c[..|c|] == c;
  }

  // ------------------------------------------------------------------------------------------
  // Counting chunks
  // ------------------------------------------------------------------------------------------

  function Elems(ix: seq<nat>): set<nat> {
    set x | x in ix
  }

  predicate NoDup(ix: seq<nat>) {
    forall i, j | 0 <= i < j < |ix| :: ix[i] != ix[j]
  }

  lemma {:induction false} BelowCount(s: set<nat>, n: nat)
    requires forall x | x in s :: x < n
    ensures |s| <= n && (|s| == n <==> forall x: nat | x < n :: x in s)
  {
    if n == 0 {
      assert s == {};
    } else {
      var t := s - {n - 1};
      BelowCount(t, n - 1);
      if n - 1 in s {
        assert s == t + {n - 1};
      } else {
        assert s == t;
      }
    }
  }

  lemma {:induction false} DistinctCount(ix: seq<nat>)
    ensures |Elems(ix)| <= |ix| && (|Elems(ix)| == |ix| <==> NoDup(ix))
  {
    if ix == [] {
      assert Elems(ix) == {};
    } else {
      var n := |ix| - 1;
      var front := ix[..n];
      DistinctCount(front);
      assert Elems(ix) == Elems(front) + {ix[n]};
      if NoDup(ix) {
        assert ix[n] !in Elems(front);
      } else if NoDup(front) {
        assert ix[n] in front;
      }
    }
  }

  /** n indexes below n cover all of them exactly when none is repeated. */
  lemma CoverExactly(ix: seq<nat>)
    requires forall i | 0 <= i < |ix| :: ix[i] < |ix|
    ensures (forall x: nat | x < |ix| :: x in ix) <==> NoDup(ix)
  {
    DistinctCount(ix);
    BelowCount(Elems(ix), |ix|);
    assert forall x :: x in Elems(ix) <==> x in ix;
  }

  // ------------------------------------------------------------------------------------------
  // The round trip
  // ------------------------------------------------------------------------------------------

  /** The indexes of a transfer's chunks in order of arrival. */
  function Indexes(ms: seq<Arrival>, id: string): seq<int> {
    if ms == [] then []
    else
      var before, m := Indexes(ms[..|ms| - 1], id), ms[|ms| - 1].msg;
      if m.Chunk? && m.id == id then before + [m.index] else before
  }

  /** Every message of the transfer is a chunk of the file; other transfers may do anything. */
  predicate ChunksOf(ms: seq<Arrival>, id: string, c: bytes) {
    forall i | 0 <= i < |ms| && ms[i].msg.id == id ::
      ms[i].msg.Chunk? && 0 <= ms[i].msg.index < Total(c) && ms[i].msg == ChunkOf(id, c, ms[i].msg.index)
  }

  /** The transfer after some of its chunks. */
  ghost predicate Holds(t: Transfer, h: bytes -> string, name: string, c: bytes, ix: seq<int>) {
    && t.name == name && t.total == Total(c) && t.hash == h(c) && t.received == |ix|
    && (forall i :: i in t.chunks <==> i in ix)
    && (forall i | i in t.chunks :: 0 <= i && t.chunks[i] == Piece(c, i))
  }

  lemma OthersStay(h: bytes -> string, s: State, a: Arrival, id: string)
    requires a.msg.id != id && id in s.transfers
    ensures id in Step(h, s, a).0.transfers && Step(h, s, a).0.transfers[id] == s.transfers[id]
  {
    hide FirstMissing, Glued;
  }

  lemma ChunkHeld(h: bytes -> string, t: Transfer, name: string, c: bytes, ix: seq<int>, i: nat)
    requires Holds(t, h, name, c, ix)
    ensures Holds(WithChunk(t, i, Piece(c, i)), h, name, c, ix + [i])
  {
    hide Piece;
  }

  lemma {:induction false} ChunksAccumulate(h: bytes -> string, s: State, ms: seq<Arrival>, id: string, name: string,
                                            c: bytes)
    requires id in s.transfers && Holds(s.transfers[id], h, name, c, [])
    requires ChunksOf(ms, id, c) && |Indexes(ms, id)| < Total(c)
    ensures id in Run(h, s, ms).transfers && Holds(Run(h, s, ms).transfers[id], h, name, c, Indexes(ms, id))
  {
    if ms != [] {
      hide Holds, Piece, Assemble;
      var before, a := ms[..|ms| - 1], ms[|ms| - 1];
      ChunksAccumulate(h, s, before, id, name, c);
      var now := Run(h, s, before);
      if a.msg.id != id {
        hide Step;
        OthersStay(h, now, a, id);
      } else {
        ChunkHeld(h, now.transfers[id], name, c, Indexes(before, id), a.msg.index);
        StillMissing(now.transfers[id], h, name, c, Indexes(before, id));
      }
    }
  }

  lemma StillMissing(t: Transfer, h: bytes -> string, name: string, c: bytes, ix: seq<int>)
    requires Holds(t, h, name, c, ix)
    ensures t.received == |ix| && t.total == Total(c)
  {
  }

  /** Assembling a transfer that has received as many chunks as the file has. */
  lemma AssembleExactly(h: bytes -> string, s: State, id: string, name: string, c: bytes, ix: seq<nat>)
    requires id in s.transfers && Holds(s.transfers[id], h, name, c, ix)
    requires |ix| == Total(c) && forall i | 0 <= i < |ix| :: ix[i] < |ix|
    ensures var (t, o) := Assemble(h, s, id);
      && id !in t.transfers
      && (NoDup(ix) ==> o == Assembled(id, name, c) && t.files == s.files[name := c])
      && (!NoDup(ix) ==> exists i: nat :: i < Total(c) && i !in ix && o == Failed(MissingChunk(i)))
  {
    var t := s.transfers[id];
    var n := FirstMissing(t.chunks, t.total, 0);
    CoverExactly(ix);
    hide Piece, Glued;
    if NoDup(ix) {
      assert n == Total(c);
      AllPieces(c, t.chunks);
    } else {
      var x: nat :| x < |ix| && x !in ix;
      assert x !in t.chunks;
      assert n < t.total && n !in ix;
    }
  }

  lemma {:induction false} IndexesBelow(ms: seq<Arrival>, id: string, c: bytes)
    requires ChunksOf(ms, id, c)
    ensures forall i | 0 <= i < |Indexes(ms, id)| :: 0 <= Indexes(ms, id)[i] < Total(c)
  {
    if ms != [] {
      IndexesBelow(ms[..|ms| - 1], id, c);
    }
  }

  function AsNats(ix: seq<int>): (ns: seq<nat>)
    requires forall i | 0 <= i < |ix| :: 0 <= ix[i]
    ensures ns == ix
  {
    ix
  }

  /** Once the header is in, and whatever other transfers do in between, the arrival of the last of as
      many chunks as the file has decides: if they came each once, in any order, the file is put
      together exactly; if some chunk came twice, the transfer is given up with a chunk missing. */
  lemma FileArrivesExactly(h: bytes -> string, s: State, ms: seq<Arrival>, id: string, name: string, c: bytes)
    requires id in s.transfers && Holds(s.transfers[id], h, name, c, [])
    requires ms != [] && ms[|ms| - 1].msg.id == id && ChunksOf(ms, id, c) && |Indexes(ms, id)| == Total(c)
    ensures id !in Run(h, s, ms).transfers
    ensures (forall i, j | 0 <= i < j < |Indexes(ms, id)| :: Indexes(ms, id)[i] != Indexes(ms, id)[j]) <==>
      Last(h, s, ms) == Assembled(id, name, c)
    ensures Last(h, s, ms) != Assembled(id, name, c) ==>
      exists i :: 0 <= i < Total(c) && i !in Indexes(ms, id) && Last(h, s, ms) == Failed(MissingChunk(i))
  {
    hide Holds, Piece, Assemble;
    var before, a := ms[..|ms| - 1], ms[|ms| - 1];
    ChunksAccumulate(h, s, before, id, name, c);
    var now := Run(h, s, before);
    IndexesBelow(ms, id, c);
    var ix := AsNats(Indexes(ms, id));
    ChunkHeld(h, now.transfers[id], name, c, Indexes(before, id), a.msg.index);
    StillMissing(now.transfers[id], h, name, c, Indexes(before, id));
    var t := WithChunk(now.transfers[id], a.msg.index, a.msg.data);
    AssembleExactly(h, now.(transfers := now.transfers[id := t]), id, name, c, ix);
  }

  /** A header starts such a transfer. */
  lemma HeaderStarts(h: bytes -> string, s: State, id: string, name: string, c: bytes)
    ensures var t := OnHeader(s, HeaderOf(h, id, name, c));
      id in t.transfers && Holds(t.transfers[id], h, name, c, [])
  {
  }

  /** A file without content has no chunks; it is put together when its end message comes. */
  lemma EmptyFileArrives(h: bytes -> string, s: State, ms: seq<Arrival>, id: string, name: string, recent: bool)
    requires id in s.transfers && Holds(s.transfers[id], h, name, [], [])
    requires forall i | 0 <= i < |ms| :: ms[i].msg.id != id
    ensures Last(h, s, ms + [Arrival(End(id, true), recent)]) == Assembled(id, name, [])
  {
    var all := ms + [Arrival(End(id, true), recent)];
    assert all[..|ms|] == ms;
    StayThroughout(h, s, ms, id);
    var now := Run(h, s, ms);
    hide Run, Holds, Piece, Assemble;
    AssembleExactly(h, now, id, name, [], []);
  }

  lemma {:induction false} StayThroughout(h: bytes -> string, s: State, ms: seq<Arrival>, id: string)
    requires id in s.transfers && forall i | 0 <= i < |ms| :: ms[i].msg.id != id
    ensures id in Run(h, s, ms).transfers && Run(h, s, ms).transfers[id] == s.transfers[id]
  {
    if ms != [] {
      hide Step;
      StayThroughout(h, s, ms[..|ms| - 1], id);
      OthersStay(h, Run(h, s, ms[..|ms| - 1]), ms[|ms| - 1], id);
    }
  }

  // ------------------------------------------------------------------------------------------
  // From SendFile to the assembled file
  // ------------------------------------------------------------------------------------------

  /** The chunks of a sent file arrive each once, in any order, among messages of other transfers. */
  ghost predicate ArriveOnce(h: bytes -> string, mid: seq<Arrival>, id: string, name: string, c: bytes) {
    && (forall i | 0 <= i < |mid| && mid[i].msg.id == id ::
          && mid[i].msg.Chunk? && 0 <= mid[i].msg.index < Total(c)
          && mid[i].msg == MessagesOf(h, id, name, c)[mid[i].msg.index + 1])
    && |Indexes(mid, id)| == Total(c)
    && (forall i, j | 0 <= i < j < |Indexes(mid, id)| :: Indexes(mid, id)[i] != Indexes(mid, id)[j])
  }

  lemma {:induction false} RunAfterFirst(h: bytes -> string, s: State, a: Arrival, ms: seq<Arrival>)
    ensures Run(h, s, [a] + ms) == Run(h, Step(h, s, a).0, ms)
    ensures ms != [] ==> Last(h, s, [a] + ms) == Last(h, Step(h, s, a).0, ms)
  {
    hide Step;
    var all := [a] + ms;
    if ms == [] {
      assert all[..0] == [] && all[0] == a;
      assert Run(h, s, []) == s;
    } else {
      RunAfterFirst(h, s, a, ms[..|ms| - 1]);
      assert all[..|all| - 1] == [a] + ms[..|ms| - 1];
    }
  }

  /** The last message of the transfer, after which nothing of it is missing. */
  lemma {:induction false} LastOwn(mid: seq<Arrival>, id: string) returns (k: nat)
    requires Indexes(mid, id) != []
    requires forall i | 0 <= i < |mid| && mid[i].msg.id == id :: mid[i].msg.Chunk?
    ensures k < |mid| && mid[k].msg.id == id && Indexes(mid[..k + 1], id) == Indexes(mid, id)
  {
    var n := |mid| - 1;
    if mid[n].msg.id == id {
      k := n;
      assert mid[..n + 1] == mid;
    } else {
      k := LastOwn(mid[..n], id);
      assert mid[..n][..k + 1] == mid[..k + 1];
    }
  }

  /** Some message after the first assembles the file. */
  ghost predicate SomeAssembles(h: bytes -> string, s: State, all: seq<Arrival>, id: string, name: string, c: bytes) {
    exists k :: 1 < k <= |all| && Last(h, s, all[..k]) == Assembled(id, name, c)
  }

  /** What SendFile sends is put together again: the header first, the chunks in any order and among
      messages of any other transfers, the end last. Some message on the way assembles exactly the file:
      its last chunk or, for a file without content, its end message. */
  lemma SentFileArrives(h: bytes -> string, s: State, mid: seq<Arrival>, id: string, name: string, c: bytes)
    requires ArriveOnce(h, mid, id, name, c)
    ensures var ms := MessagesOf(h, id, name, c);
      SomeAssembles(h, s, [Arrival(ms[0], false)] + mid + [Arrival(ms[|ms| - 1], false)], id, name, c)
  {
    hide Holds, Piece, Step, Run, Last, ArriveOnce;
    var ms := MessagesOf(h, id, name, c);
    var first, last := Arrival(ms[0], false), Arrival(ms[|ms| - 1], false);
    var all := [first] + mid + [last];
    if c == [] {
      EmptyFileIsSent(h, s, first, mid, id, name);
      assert all[..|mid| + 2] == [first] + mid + [Arrival(End(id, true), false)];
    } else {
      var k := ChunkedFileIsSent(h, s, first, mid, id, name, c);
      assert all[..k + 2] == [first] + mid[..k + 1];
      assert 1 < k + 2 <= |all| && Last(h, s, all[..k + 2]) == Assembled(id, name, c);
    }
  }

  lemma HeaderStep(h: bytes -> string, s: State, first: Arrival, id: string, name: string, c: bytes)
    requires first.msg == HeaderOf(h, id, name, c)
    ensures var t := Step(h, s, first).0; id in t.transfers && Holds(t.transfers[id], h, name, c, [])
  {
    HeaderStarts(h, s, id, name, c);
  }

  lemma EmptyFileIsSent(h: bytes -> string, s: State, first: Arrival, mid: seq<Arrival>, id: string, name: string)
    requires ArriveOnce(h, mid, id, name, []) && first.msg == HeaderOf(h, id, name, [])
    ensures Last(h, s, [first] + mid + [Arrival(End(id, true), false)]) == Assembled(id, name, [])
  {
    hide Holds, Piece, Step, Run, Last;
    var last := Arrival(End(id, true), false);
    HeaderStep(h, s, first, id, name, []);
    NoOwnMessages(h, mid, id, name);
    EmptyFileArrives(h, Step(h, s, first).0, mid, id, name, false);
    RunAfterFirst(h, s, first, mid + [last]);
    assert [first] + mid + [last] == [first] + (mid + [last]);
  }

  lemma ChunkedFileIsSent(h: bytes -> string, s: State, first: Arrival, mid: seq<Arrival>, id: string, name: string,
                          c: bytes) returns (k: nat)
    requires ArriveOnce(h, mid, id, name, c) && c != [] && first.msg == HeaderOf(h, id, name, c)
    ensures k < |mid| && Last(h, s, [first] + mid[..k + 1]) == Assembled(id, name, c)
  {
    hide Holds, Piece, Step, Run, Last;
    HeaderStep(h, s, first, id, name, c);
    k := LastOwn(mid, id);
    var part := mid[..k + 1];
    assert ChunksOf(part, id, c);
    FileArrivesExactly(h, Step(h, s, first).0, part, id, name, c);
    RunAfterFirst(h, s, first, part);
  }

  lemma NoOwnMessages(h: bytes -> string, mid: seq<Arrival>, id: string, name: string)
    requires ArriveOnce(h, mid, id, name, [])
    ensures forall i | 0 <= i < |mid| :: mid[i].msg.id != id
  {
    assert Total([]) == 0;
  }

  /** The messages written out: the header has size, number of chunks and hash, the chunks are the
      successive stretches of 1048576 bytes with the rest in the last, each with its index and length. */
  lemma SentMessages(h: bytes -> string, id: string, name: string, c: bytes)
    ensures var ms, n := MessagesOf(h, id, name, c), (|c| + 1048575) / 1048576;
      && |ms| == n + 2 && ms[0] == Header(id, name, |c|, n, h(c)) && ms[n + 1] == End(id, true)
      && forall i | 0 <= i < n ::
           var from, to := i * 1048576, if (i + 1) * 1048576 <= |c| then (i + 1) * 1048576 else |c|;
           from < to && ms[i + 1] == Chunk(id, i, to - from, c[from..to])
  {
    var n := (|c| + 1048575) / 1048576;
    assert n == Total(c);
    forall i | 0 <= i < n
      ensures i * 1048576 < |c|
    {
    }
  }

  // ------------------------------------------------------------------------------------------
  // What is on disk
  // ------------------------------------------------------------------------------------------

  /** The chunks below `n`, one after the other. */
  predicate Concatenates(chunks: map<int, bytes>, n: nat, content: bytes)
    requires forall k | 0 <= k < n :: k in chunks
  {
    if n == 0 then content == []
    else
      var d := chunks[n - 1];
      |d| <= |content| && content[|content| - |d|..] == d && Concatenates(chunks, n - 1, content[..|content| - |d|])
  }

  lemma {:induction false} GluedConcatenates(chunks: map<int, bytes>, n: nat)
    requires forall k | 0 <= k < n :: k in chunks
    ensures Concatenates(chunks, n, Glued(chunks, n))
  {
    if n > 0 {
      GluedConcatenates(chunks, n - 1);
      var content, d := Glued(chunks, n), chunks[n - 1];
      assert content[..|content| - |d|] == Glued(chunks, n - 1);
    }
  }

  /** The transfer as it is when it is put together: with the chunk that just came, if one did. */
  function Grown(s: State, a: Arrival): Transfer
    requires a.msg.id in s.transfers
  {
    var t := s.transfers[a.msg.id];
    match a.msg
    case Chunk(_, index, _, data) =>
      Transfer(t.name, t.size, t.total, t.hash, t.chunks[index := data], t.received + 1)
    case _ => t
  }

  /** A message puts a transfer together exactly when it is a chunk or a successful end message of a known
      transfer that has by then counted as many chunks as it announced. */
  predicate PutsTogether(s: State, a: Arrival) {
    && a.msg.id in s.transfers && Grown(s, a).received >= Grown(s, a).total
    && (a.msg.Chunk? || (a.msg.End? && a.msg.success))
  }

  /** Nothing else touches the disk, and this is what the sender of such a message is told. */
  lemma OtherwiseDiskStays(h: bytes -> string, s: State, a: Arrival)
    requires !PutsTogether(s, a)
    ensures var (t, o) := Step(h, s, a);
      && t.files == s.files
      && (match a.msg
          case Header(id, name, size, total, hash) =>
            o == Quiet && t.transfers == s.transfers[id := Transfer(name, size, total, hash, map[], 0)]
          case Chunk(id, _, _, _) =>
            if id in s.transfers then o == Quiet && t.transfers == s.transfers[id := Grown(s, a)]
            else o == Failed(NoSuchTransfer) && t == s
          case End(id, success) =>
            && t == s
            && o == if !success then Failed(SenderFailed)
                    else if id in s.transfers then Failed(Incomplete)
                    else if a.recent then Quiet else Failed(NoSuchTransfer))
  {
  }

  /** The first `n` chunks are there and make up `content`; the next one is missing or not asked for. */
  predicate Reads(g: Transfer, n: nat, content: bytes) {
    && (forall k | 0 <= k < n :: k in g.chunks) && Concatenates(g.chunks, n, content)
    && (if n < g.total then n !in g.chunks else n == 0 || n == g.total)
  }

  /** What comes of putting a transfer together. With a chunk missing, the chunks before it are left on
      disk under the name; with the wrong hash nothing is left under the name; otherwise the file is. The
      transfer is forgotten in each case, and no other file and no other transfer is touched. */
  lemma PutTogetherExactly(h: bytes -> string, s: State, a: Arrival) returns (n: nat, content: bytes)
    requires PutsTogether(s, a)
    ensures var (t, o) := Step(h, s, a);
      var g := Grown(s, a);
      && Reads(g, n, content) && t.transfers == s.transfers - {a.msg.id}
      && (n < g.total ==> o == Failed(MissingChunk(n)) && t.files == s.files[g.name := content])
      && (n >= g.total && h(content) != g.hash ==> o == Failed(HashMismatch) && t.files == s.files - {g.name})
      && (n >= g.total && h(content) == g.hash ==>
            o == Assembled(a.msg.id, g.name, content) && t.files == s.files[g.name := content])
  {
    hide Glued, Concatenates;
    var g := Grown(s, a);
    n := FirstMissing(g.chunks, g.total, 0);
    content := Glued(g.chunks, n);
    GluedConcatenates(g.chunks, n);
  }

  /** Some header of the run announces this content under this name. */
  ghost predicate Vouched(h: bytes -> string, ms: seq<Arrival>, x: string, content: bytes) {
    exists i :: 0 <= i < |ms| && ms[i].msg.Header? && ms[i].msg.name == x && ms[i].msg.hash == h(content)
  }

  /** Some message of the run put together a transfer of this name that lacked a chunk. */
  ghost predicate CutShort(h: bytes -> string, ms: seq<Arrival>, x: string) {
    exists k :: 0 <= k < |ms| && Cuts(h, Run(h, State(map[], map[]), ms[..k]), ms[k], x)
  }

  ghost predicate Cuts(h: bytes -> string, s: State, a: Arrival, x: string) {
    PutsTogether(s, a) && Grown(s, a).name == x && Step(h, s, a).1.Failed? && Step(h, s, a).1.why.MissingChunk?
  }

  lemma AnnouncedIsSomewhere(ms: seq<Arrival>, id: string)
    requires Announced(ms, id).Some?
    ensures exists i :: 0 <= i < |ms| && ms[i].msg == Announced(ms, id).value && ms[i].msg.Header?
  {
    if !(ms[|ms| - 1].msg.Header? && ms[|ms| - 1].msg.id == id) {
      AnnouncedIsSomewhere(ms[..|ms| - 1], id);
    }
  }

  /** In any run from the start, every file on disk has the hash some header announced for its name, or
      else a transfer of that name was put together with a chunk missing. */
  lemma {:induction false} FilesAreVouchedFor(h: bytes -> string, ms: seq<Arrival>, x: string)
    requires x in Run(h, State(map[], map[]), ms).files
    ensures Vouched(h, ms, x, Run(h, State(map[], map[]), ms).files[x]) || CutShort(h, ms, x)
  {
    hide Step, PutsTogether, Vouched, CutShort;
    if ms != [] {
      var n := |ms| - 1;
      var front, a, s := ms[..n], ms[n], Run(h, State(map[], map[]), ms[..n]);
      var t := Step(h, s, a).0;
      assert front + [a] == ms;
      if x in s.files && t.files[x] == s.files[x] {
        FilesAreVouchedFor(h, front, x);
        VouchedStays(h, front, a, x, s.files[x]);
      } else if !PutsTogether(s, a) {
        FilesStay(h, s, a);
        assert false;
      } else {
        WrittenIsVouched(h, ms, x);
      }
    }
  }

  lemma FilesStay(h: bytes -> string, s: State, a: Arrival)
    requires !PutsTogether(s, a)
    ensures Step(h, s, a).0.files == s.files
  {
    OtherwiseDiskStays(h, s, a);
  }

  lemma VouchedStays(h: bytes -> string, front: seq<Arrival>, a: Arrival, x: string, content: bytes)
    requires Vouched(h, front, x, content) || CutShort(h, front, x)
    ensures Vouched(h, front + [a], x, content) || CutShort(h, front + [a], x)
  {
    hide Run, Cuts;
    var all := front + [a];
    if Vouched(h, front, x, content) {
      var i :| 0 <= i < |front| && front[i].msg.Header? && front[i].msg.name == x && front[i].msg.hash == h(content);
      assert all[i] == front[i];
    } else {
      var k :| 0 <= k < |front| && Cuts(h, Run(h, State(map[], map[]), front[..k]), front[k], x);
      assert all[k] == front[k] && all[..k] == front[..k];
    }
  }

  lemma WrittenIsVouched(h: bytes -> string, ms: seq<Arrival>, x: string)
    requires ms != []
    requires var s, a := Run(h, State(map[], map[]), ms[..|ms| - 1]), ms[|ms| - 1];
      var t := Step(h, s, a).0;
      PutsTogether(s, a) && x in t.files && !(x in s.files && t.files[x] == s.files[x])
    ensures Vouched(h, ms, x, Run(h, State(map[], map[]), ms).files[x]) || CutShort(h, ms, x)
  {
    hide Step, Announced, Reads;
    var front, a := ms[..|ms| - 1], ms[|ms| - 1];
    var s := Run(h, State(map[], map[]), front);
    var n, content := PutTogetherExactly(h, s, a);
    TransfersAreAnnounced(h, front, a.msg.id);
    AnnouncedIsSomewhere(front, a.msg.id);
  }
}
