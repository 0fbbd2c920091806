/** The kernel's audit log (`kernel/evidence/audit_log.go`) with its memory cache: an append-only list of
    records, each holding the hash of the one before it, and indexes by channel, source and flow. The
    source keeps pointers to shared records in its indexes; here an index holds positions. Event ids,
    times and signatures are parameters. */
module Evidence {
  import opened Wrappers

  /** What is reported. `time` counts nanoseconds. */
  datatype Event = Event(
    id: string, kind: string, source: string, target: string, direction: string, channel: string, flow: string,
    dataHash: string, time: int, metadata: map<string, string>)

  datatype Record = Record(event: Event, prevHash: string, hash: string, signature: string)

  type Index = map<string, seq<nat>>

  datatype Log = Log(records: seq<Record>, byChannel: Index, bySource: Index, byFlow: Index, lastHash: string)

  const EMPTY := Log([], map[], map[], map[], "")

  // ------------------------------------------------------------------------------------------
  // The hash of a record
  // ------------------------------------------------------------------------------------------

  function Digits(n: nat): string {
    if n < 10 then ['0' + n as char] else Digits(n / 10) + ['0' + (n % 10) as char]
  }

  /** %d */
  function Decimal(n: int): string {
    if n < 0 then "-" + Digits(-n) else Digits(n)
  }

  const SECOND: int := 1000000000

  /** Timestamp.Unix(): whole seconds. */
  function Unix(time: int): int {
    time / SECOND
  }

  /** The fields that are hashed, in order. The flow, the metadata and the signature are not among them. */
  function Covered(e: Event, prevHash: string): seq<string> {
    [e.id, e.kind, e.source, e.target, e.direction, e.channel, e.dataHash, Decimal(Unix(e.time)), prevHash]
  }

  function Join(fs: seq<string>): string {
    if fs == [] then "" else if |fs| == 1 then fs[0] else fs[0] + "|" + Join(fs[1..])
  }

  function Rendering(e: Event, prevHash: string): string {
    Join(Covered(e, prevHash))
  }

  predicate Verified(h: string -> string, r: Record) {
    r.hash == h(Rendering(r.event, r.prevHash))
  }

  // ------------------------------------------------------------------------------------------
  // Submitting, signing, querying
  // ------------------------------------------------------------------------------------------

  function Positions(idx: Index, key: string): seq<nat> {
    if key in idx then idx[key] else []
  }

  function AddTo(idx: Index, key: string, at: nat): Index {
    if key == "" then idx else idx[key := Positions(idx, key) + [at]]
  }

  function Submitted(h: string -> string, log: Log, e: Event, signature: string): Log {
    var r := Record(e, log.lastHash, h(Rendering(e, log.lastHash)), signature);
    var at := |log.records|;
    Log(log.records + [r], AddTo(log.byChannel, e.channel, at), AddTo(log.bySource, e.source, at),
        AddTo(log.byFlow, e.flow, at), r.hash)
  }

  /** SubmitBasicEvidenceWithRetry knows neither a flow nor metadata. */
  function WithoutFlow(e: Event): Event {
    e.(flow := "", metadata := map[])
  }

  predicate InRange(idx: Index, n: nat) {
    forall k, i | k in idx && 0 <= i < |idx[k]| :: idx[k][i] < n
  }

  predicate IndexesInRange(log: Log) {
    InRange(log.byChannel, |log.records|) && InRange(log.bySource, |log.records|) && InRange(log.byFlow, |log.records|)
  }

  function Signed(log: Log, flow: string, signature: string): Log
    requires IndexesInRange(log)
  {
    var ps := Positions(log.byFlow, flow);
    if flow == "" || ps == [] then log
    else
      var at := ps[|ps| - 1];
      log.(records := log.records[at := log.records[at].(signature := signature)])
  }

  /** The records at some positions. */
  function Pick(records: seq<Record>, ps: seq<nat>): (rs: seq<Record>)
    requires forall i | 0 <= i < |ps| :: ps[i] < |records|
    ensures |rs| == |ps| && forall i | 0 <= i < |ps| :: rs[i] == records[ps[i]]
  {
    if ps == [] then [] else Pick(records, ps[..|ps| - 1]) + [records[ps[|ps| - 1]]]
  }

  /** Strictly between the two times; a missing time is no bound. */
  predicate Within(r: Record, start: Option<int>, end: Option<int>) {
    (start.Some? ==> r.event.time > start.value) && (end.Some? ==> r.event.time < end.value)
  }

  function During(start: Option<int>, end: Option<int>): Record -> bool {
    r => Within(r, start, end)
  }

  function Filter(rs: seq<Record>, keep: Record -> bool): seq<Record> {
    if rs == [] then []
    else
      var before, r := Filter(rs[..|rs| - 1], keep), rs[|rs| - 1];
      if keep(r) then before + [r] else before
  }

  /** At most the first `limit`; zero and negative limits are none. */
  function Limited(rs: seq<Record>, limit: int): seq<Record> {
    if 0 < limit < |rs| then rs[..limit] else rs
  }

  datatype FlowVerdict = NoFlow | NoRecords | NoSignature | Broken(at: nat) | Unbroken

  /** VerifyFlow up to the check of the flow signature itself. */
  predicate FlowLinked(rs: seq<Record>) {
    forall i | 0 < i < |rs| :: rs[i].prevHash == rs[i - 1].hash
  }

  class AuditLog {
    const h: string -> string
    var records: seq<Record>
    var byChannel: Index
    var bySource: Index
    var byFlow: Index
    var lastHash: string

    constructor (hash: string -> string)
      ensures h == hash && Now() == EMPTY && Valid()
    {
      h, records, byChannel, bySource, byFlow, lastHash := hash, [], map[], map[], map[], "";
    }

    function Now(): Log
      reads this
    {
      Log(records, byChannel, bySource, byFlow, lastHash)
    }

    predicate Valid()
      reads this
    {
      IndexesInRange(Now())
    }

    method Append(e: Event, signature: string)
      requires Valid()
      modifies `records, `byChannel, `bySource, `byFlow, `lastHash
      ensures Valid() && Now() == Submitted(h, old(Now()), e, signature)
    {
      hide InRange, Rendering;
      var r := Record(e, lastHash, h(Rendering(e, lastHash)), signature);
      lastHash := r.hash;
      var at := |records|;
      records := records + [r];
      if e.channel != "" {
        byChannel := byChannel[e.channel := Positions(byChannel, e.channel) + [at]];
      }
      if e.source != "" {
        bySource := bySource[e.source := Positions(bySource, e.source) + [at]];
      }
      if e.flow != "" {
        byFlow := byFlow[e.flow := Positions(byFlow, e.flow) + [at]];
      }
      InRangeGrows(old(byChannel), e.channel, at);
      InRangeGrows(old(bySource), e.source, at);
      InRangeGrows(old(byFlow), e.flow, at);
    }

    method SubmitBasicEvidenceWithMetadata(e: Event, signature: string) returns (r: Record)
      requires Valid()
      modifies `records, `byChannel, `bySource, `byFlow, `lastHash
      ensures Valid() && Now() == Submitted(h, old(Now()), e, signature) && r == records[|records| - 1]
    {
      Append(e, signature);
      r := records[|records| - 1];
    }

    method SubmitBasicEvidenceWithRetry(e: Event, signature: string) returns (r: Record)
      requires Valid()
      modifies `records, `byChannel, `bySource, `byFlow, `lastHash
      ensures Valid() && Now() == Submitted(h, old(Now()), WithoutFlow(e), signature) && r == records[|records| - 1]
    {
      Append(WithoutFlow(e), signature);
      r := records[|records| - 1];
    }

    method FilterByTimeRange(rs: seq<Record>, start: Option<int>, end: Option<int>, limit: int)
      returns (found: seq<Record>)
      ensures found == Limited(Filter(rs, During(start, end)), limit)
    {
      var keep := During(start, end);
      found := [];
      for i := 0 to |rs|
        invariant found == Filter(rs[..i], keep)
        invariant limit > 0 ==> |found| < limit
      {
        assert rs[..i + 1][..i] == rs[..i];
        if (start.None? || rs[i].event.time > start.value) && (end.None? || rs[i].event.time < end.value) {
          found := found + [rs[i]];
          if limit > 0 && |found| >= limit {
            FilterPrefix(rs, keep, i + 1);
            return;
          }
        }
      }
      assert rs[..|rs|] == rs;
    }

    method QueryByChannel(key: string, start: Option<int>, end: Option<int>, limit: int) returns (found: seq<Record>)
      requires Valid()
      ensures found == Limited(Filter(Pick(records, Positions(byChannel, key)), During(start, end)), limit)
    {
      found := FilterByTimeRange(Pick(records, Positions(byChannel, key)), start, end, limit);
    }

    method QueryBySource(key: string, start: Option<int>, end: Option<int>, limit: int) returns (found: seq<Record>)
      requires Valid()
      ensures found == Limited(Filter(Pick(records, Positions(bySource, key)), During(start, end)), limit)
    {
      found := FilterByTimeRange(Pick(records, Positions(bySource, key)), start, end, limit);
    }

    method QueryByFlowID(key: string, start: Option<int>, end: Option<int>, limit: int) returns (found: seq<Record>)
      requires Valid()
      ensures found == Limited(Filter(Pick(records, Positions(byFlow, key)), During(start, end)), limit)
    {
      found := FilterByTimeRange(Pick(records, Positions(byFlow, key)), start, end, limit);
    }

    method SignFlow(flow: string, signature: string) returns (ok: bool)
      requires Valid()
      modifies `records
      ensures Valid() && Now() == Signed(old(Now()), flow, signature)
      ensures ok == (flow != "" && Positions(old(byFlow), flow) != [])
    {
      if flow == "" {
        return false;
      }
      var ps := Positions(byFlow, flow);
      if |ps| == 0 {
        return false;
      }
      var at := ps[|ps| - 1];
      records := records[at := records[at].(signature := signature)];
      return true;
    }

    method VerifyRecord(r: Record) returns (ok: bool)
      ensures ok == Verified(h, r)
    {
      ok := h(Rendering(r.event, r.prevHash)) == r.hash;
    }

    method VerifyFlowLinks(flow: string) returns (v: FlowVerdict)
      requires Valid()
      ensures var rs := Pick(records, Positions(byFlow, flow));
        && (v == NoFlow <==> flow == "")
        && (v == NoRecords <==> flow != "" && rs == [])
        && (v == NoSignature <==> flow != "" && rs != [] && rs[|rs| - 1].signature == "")
        && (v.Broken? ==> 0 < v.at < |rs| && FlowLinked(rs[..v.at]) && rs[v.at].prevHash != rs[v.at - 1].hash)
        && (v == Unbroken <==> flow != "" && rs != [] && rs[|rs| - 1].signature != "" && FlowLinked(rs))
    {
      if flow == "" {
        return NoFlow;
      }
      var rs := Pick(records, Positions(byFlow, flow));
      if |rs| == 0 {
        return NoRecords;
      }
      if rs[|rs| - 1].signature == "" {
        return NoSignature;
      }
      for i := 1 to |rs|
        invariant forall j | 0 < j < i :: rs[j].prevHash == rs[j - 1].hash
      {
        if rs[i].prevHash != rs[i - 1].hash {
          return Broken(i);
        }
      }
      return Unbroken;
    }
  }

  lemma InRangeGrows(idx: Index, key: string, at: nat)
    requires InRange(idx, at)
    ensures InRange(AddTo(idx, key, at), at + 1)
  {
  }

  lemma {:induction false} FilterPrefix(rs: seq<Record>, keep: Record -> bool, i: nat)
    requires i <= |rs|
    ensures Filter(rs[..i], keep) <= Filter(rs, keep)
  {
    if i < |rs| {
      var n := |rs| - 1;
      FilterPrefix(rs[..n], keep, i);
      assert rs[..n][..i] == rs[..i];
    } else {
      assert rs[..i] == rs;
    }
  }
}
