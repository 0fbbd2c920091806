/** File transfer over a channel (`connector/client/connector.go`): SendFile cuts a file into chunks of
    1 MB between a header and an end message, FileReceiver puts it together again. Reads from the file
    are full reads; whether the end message of an unknown transfer comes soon after a finished file is a
    parameter. */
module FileTransfer {
  import opened Wrappers

  newtype byte = x: int | 0 <= x < 256

  type bytes = seq<byte>

  const CHUNK: nat := 1024 * 1024

  datatype Msg =
    | Header(id: string, name: string, size: int, total: int, hash: string)
    | Chunk(id: string, index: int, size: int, data: bytes)
    | End(id: string, success: bool)

  // ------------------------------------------------------------------------------------------
  // Sending
  // ------------------------------------------------------------------------------------------

  /** The number of chunks: the size divided by the chunk size, rounded up. */
  function Total(c: bytes): (n: nat)
    ensures n == 0 <==> c == []
    ensures c != [] ==> (n - 1) * CHUNK < |c| <= n * CHUNK
  {
    (|c| + CHUNK - 1) / CHUNK
  }

  function Upto(c: bytes, i: nat): (n: nat)
    ensures n <= |c|
  {
    if i * CHUNK <= |c| then i * CHUNK else |c|
  }

  /** The i-th chunk of a file. */
  function Piece(c: bytes, i: nat): bytes {
    c[Upto(c, i)..Upto(c, i + 1)]
  }

  function HeaderOf(h: bytes -> string, id: string, name: string, c: bytes): Msg {
    Header(id, name, |c|, Total(c), h(c))
  }

  function ChunkOf(id: string, c: bytes, i: nat): Msg {
    Chunk(id, i, |Piece(c, i)|, Piece(c, i))
  }

  /** All messages of a file: the header, every chunk, the end. */
  function MessagesOf(h: bytes -> string, id: string, name: string, c: bytes): (ms: seq<Msg>)
    ensures |ms| == Total(c) + 2 && ms[0] == HeaderOf(h, id, name, c) && ms[Total(c) + 1] == End(id, true)
    ensures forall i | 0 <= i < Total(c) :: ms[i + 1] == ChunkOf(id, c, i)
  {
    [HeaderOf(h, id, name, c)] + seq(Total(c), i requires 0 <= i => ChunkOf(id, c, i)) + [End(id, true)]
  }

  method SendFile(h: bytes -> string, id: string, name: string, c: bytes) returns (msgs: seq<Msg>)
    ensures msgs == MessagesOf(h, id, name, c)
  {
    var total := (|c| + CHUNK - 1) / CHUNK;
    msgs := [Header(id, name, |c|, total, h(c))];
    var at := 0;
    for index := 0 to total
      invariant at == Upto(c, index)
      invariant msgs == [HeaderOf(h, id, name, c)] + seq(index, i requires 0 <= i => ChunkOf(id, c, i))
    {
      var n := if |c| - at < CHUNK then |c| - at else CHUNK;
      assert at < |c| && n > 0;
      if n == 0 {
        break;
      }
      var data := c[at..at + n];
      assert data == Piece(c, index);
      msgs := msgs + [Chunk(id, index, n, data)];
      at := at + n;
    }
    msgs := msgs + [End(id, true)];
  }

  // ------------------------------------------------------------------------------------------
  // Receiving
  // ------------------------------------------------------------------------------------------

  datatype Transfer = Transfer(
    name: string, size: int, total: int, hash: string, chunks: map<int, bytes>, received: nat)

  datatype Fault = NoSuchTransfer | SenderFailed | Incomplete | MissingChunk(index: int) | HashMismatch

  datatype Outcome = Quiet | Assembled(id: string, name: string, content: bytes) | Failed(why: Fault)

  datatype State = State(transfers: map<string, Transfer>, files: map<string, bytes>)

  /** The chunks 0, 1, ... written one after the other, as far as they go. */
  function Glued(chunks: map<int, bytes>, n: nat): bytes {
    if n == 0 then [] else if n - 1 in chunks then Glued(chunks, n - 1) + chunks[n - 1] else Glued(chunks, n - 1)
  }

  function FirstMissing(chunks: map<int, bytes>, total: int, from: nat): (i: nat)
    ensures from <= i
    ensures from <= total ==> i <= total && (i < total ==> i !in chunks)
    ensures forall k | from <= k < i :: k in chunks
    decreases total - from
  {
    if from >= total || from !in chunks then from else FirstMissing(chunks, total, from + 1)
  }

  /** assembleFile. A transfer with enough chunks is forgotten whatever comes of it; a missing chunk
      leaves the part before it on disk. */
  function Assemble(h: bytes -> string, s: State, id: string): (State, Outcome) {
    if id !in s.transfers then (s, Failed(NoSuchTransfer))
    else
      var t := s.transfers[id];
      if t.received < t.total then (s, Failed(Incomplete))
      else
        var gone := s.transfers - {id};
        var n := FirstMissing(t.chunks, t.total, 0);
        var content := Glued(t.chunks, n);
        if n < t.total then (State(gone, s.files[t.name := content]), Failed(MissingChunk(n)))
        else if h(content) != t.hash then (State(gone, s.files - {t.name}), Failed(HashMismatch))
        else (State(gone, s.files[t.name := content]), Assembled(id, t.name, content))
  }

  function OnHeader(s: State, m: Msg): State
    requires m.Header?
  {
    s.(transfers := s.transfers[m.id := Transfer(m.name, m.size, m.total, m.hash, map[], 0)])
  }

  function WithChunk(t: Transfer, index: int, data: bytes): Transfer {
    t.(chunks := t.chunks[index := data], received := t.received + 1)
  }

  function OnChunk(h: bytes -> string, s: State, m: Msg): (State, Outcome)
    requires m.Chunk?
  {
    if m.id !in s.transfers then (s, Failed(NoSuchTransfer))
    else
      var t := WithChunk(s.transfers[m.id], m.index, m.data);
      var s' := s.(transfers := s.transfers[m.id := t]);
      if t.received >= t.total then Assemble(h, s', m.id) else (s', Quiet)
  }

  function OnEnd(h: bytes -> string, s: State, m: Msg, recent: bool): (State, Outcome)
    requires m.End?
  {
    if !m.success then (s, Failed(SenderFailed))
    else if m.id !in s.transfers then (s, if recent then Quiet else Failed(NoSuchTransfer))
    else Assemble(h, s, m.id)
  }

  /** Writes the chunks in order up to the first missing one. */
  method GlueChunks(chunks: map<int, bytes>, total: int) returns (content: bytes, n: nat)
    ensures n == FirstMissing(chunks, total, 0) && content == Glued(chunks, n)
  {
    content, n := [], 0;
    while n < total
      invariant n <= total || n == 0
      invariant forall k | 0 <= k < n :: k in chunks
      invariant content == Glued(chunks, n)
    {
      if n !in chunks {
        return;
      }
      content := content + chunks[n];
      n := n + 1;
    }
  }

  class FileReceiver {
    const h: bytes -> string
    var transfers: map<string, Transfer>
    var files: map<string, bytes>

    constructor (hash: bytes -> string)
      ensures h == hash && Now() == State(map[], map[])
    {
      h, transfers, files := hash, map[], map[];
    }

    function Now(): State
      reads this
    {
      State(transfers, files)
    }

    method HandleFileHeader(m: Msg)
      requires m.Header?
      modifies `transfers
      ensures Now() == OnHeader(old(Now()), m)
    {
      transfers := transfers[m.id := Transfer(m.name, m.size, m.total, m.hash, map[], 0)];
    }

    method HandleFileChunk(m: Msg) returns (o: Outcome)
      requires m.Chunk?
      modifies `transfers, `files
      ensures (Now(), o) == OnChunk(h, old(Now()), m)
    {
      if m.id !in transfers {
        return Failed(NoSuchTransfer);
      }
      var t := transfers[m.id];
      t := t.(chunks := t.chunks[m.index := m.data]);
      t := t.(received := t.received + 1);
      transfers := transfers[m.id := t];
      if t.received >= t.total {
        o := AssembleFile(m.id);
        return;
      }
      return Quiet;
    }

    method HandleFileEnd(m: Msg, recent: bool) returns (o: Outcome)
      requires m.End?
      modifies `transfers, `files
      ensures (Now(), o) == OnEnd(h, old(Now()), m, recent)
    {
      if !m.success {
        return Failed(SenderFailed);
      }
      if m.id !in transfers {
        if recent {
          return Quiet;
        }
        return Failed(NoSuchTransfer);
      }
      o := AssembleFile(m.id);
    }

    method AssembleFile(id: string) returns (o: Outcome)
      modifies `transfers, `files
      ensures (Now(), o) == Assemble(h, old(Now()), id)
    {
      if id !in transfers {
        return Failed(NoSuchTransfer);
      }
      var t := transfers[id];
      if t.received < t.total {
        return Failed(Incomplete);
      }
      transfers := transfers - {id};
      var content, n := GlueChunks(t.chunks, t.total);
      if n < t.total {
        files := files[t.name := content];
        return Failed(MissingChunk(n));
      }
      files := files[t.name := content];
      if h(content) != t.hash {
        files := files - {t.name};
        assert files == old(files) - {t.name};
        return Failed(HashMismatch);
      }
      return Assembled(id, t.name, content);
    }
  }
}
