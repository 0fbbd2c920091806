/** The audit log's indexed queries against a plain scan, and the flow check against adjacency. */
module EvidenceQueries {
  import opened Wrappers
  import opened Evidence
  import opened EvidenceProofs

  function WithKey(f: Event -> string, key: string): Record -> bool {
    (r: Record) => f(r.event) == key
  }

  /** What a query asks for, record by record. */
  function Wanted(f: Event -> string, key: string, start: Option<int>, end: Option<int>): Record -> bool {
    (r: Record) =>
      && f(r.event) == key
      && (start.None? || r.event.time > start.value) && (end.None? || r.event.time < end.value)
  }

  /** Strictly rising positions below n. */
  predicate Rising(ps: seq<nat>, n: nat) {
    (forall i | 0 <= i < |ps| :: ps[i] < n) && (forall i, j | 0 <= i < j < |ps| :: ps[i] < ps[j])
  }

  lemma RisingGrows(ps: seq<nat>, n: nat)
    requires Rising(ps, n)
    ensures Rising(ps, n + 1) && Rising(ps + [n], n + 1)
  {
  }

  lemma {:induction false} ScanRises(rs: seq<Record>, f: Event -> string, key: string)
    ensures Rising(Scan(rs, f, key), |rs|)
  {
    if rs != [] {
      var n := |rs| - 1;
      ScanRises(rs[..n], f, key);
      RisingGrows(Scan(rs[..n], f, key), n);
    }
  }

  lemma PickPrefix(rs: seq<Record>, n: nat, ps: seq<nat>)
    requires n <= |rs| && forall i | 0 <= i < |ps| :: ps[i] < n
    ensures Pick(rs, ps) == Pick(rs[..n], ps)
  {
  }

  lemma {:induction false} PickScan(rs: seq<Record>, f: Event -> string, key: string)
    ensures forall i | 0 <= i < |Scan(rs, f, key)| :: Scan(rs, f, key)[i] < |rs|
    ensures Pick(rs, Scan(rs, f, key)) == Filter(rs, WithKey(f, key))
  {
    ScanRises(rs, f, key);
    if rs != [] {
      var n := |rs| - 1;
      PickScan(rs[..n], f, key);
      PickPrefix(rs, n, Scan(rs[..n], f, key));
      if f(rs[n].event) == key {
        var ps := Scan(rs[..n], f, key);
        assert (ps + [n])[..|ps|] == ps;
      }
    }
  }

  lemma {:induction false} FilterTwice(rs: seq<Record>, f: Event -> string, key: string,
                                       start: Option<int>, end: Option<int>)
    ensures Filter(Filter(rs, WithKey(f, key)), During(start, end)) == Filter(rs, Wanted(f, key, start, end))
  {
    if rs != [] {
      var n := |rs| - 1;
      FilterTwice(rs[..n], f, key, start, end);
      var inner := Filter(rs[..n], WithKey(f, key));
      assert (inner + [rs[n]])[..|inner|] == inner;
    }
  }

  lemma IndexIsScan(idx: Index, rs: seq<Record>, f: Event -> string, key: string, start: Option<int>, end: Option<int>)
    requires Exact(idx, rs, f) && key != "" && InRange(idx, |rs|)
    ensures Filter(Pick(rs, Positions(idx, key)), During(start, end)) == Filter(rs, Wanted(f, key, start, end))
  {
    PickScan(rs, f, key);
    FilterTwice(rs, f, key, start, end);
    assert Positions(idx, key) == Scan(rs, f, key);
  }

  /** Filtering keeps, in order, exactly the records asked for. */
  lemma {:induction false} FilterInOrder(rs: seq<Record>, ts: seq<Record>, keep: Record -> bool)
    ensures Filter(rs + ts, keep) == Filter(rs, keep) + Filter(ts, keep)
  {
    if ts == [] {
      assert rs + ts == rs;
    } else {
      var k := |ts| - 1;
      FilterInOrder(rs, ts[..k], keep);
      assert (rs + ts)[..|rs + ts| - 1] == rs + ts[..k];
    }
  }

  lemma FilterOne(r: Record, keep: Record -> bool)
    ensures Filter([r], keep) == if keep(r) then [r] else []
  {
    assert [r][..0] == [] && Filter([], keep) == [];
  }

  /** The first `limit` of some records, or all of them. */
  ghost predicate FirstOf(found: seq<Record>, all: seq<Record>, limit: int) {
    found <= all && |found| == if limit > 0 && |all| > limit then limit else |all|
  }

  /** After any run of submits and signatures, a query by channel, source or flow returns the first
      `limit` records, in log order, of a plain scan of the whole log. */
  lemma QueriesRefineScan(h: string -> string, ops: seq<Op>, key: string,
                          start: Option<int>, end: Option<int>, limit: int)
    requires key != ""
    ensures var log := Run(h, ops);
      && FirstOf(Limited(Filter(Pick(log.records, Positions(log.byChannel, key)), During(start, end)), limit),
                 Filter(log.records, Wanted((e: Event) => e.channel, key, start, end)), limit)
      && FirstOf(Limited(Filter(Pick(log.records, Positions(log.bySource, key)), During(start, end)), limit),
                 Filter(log.records, Wanted((e: Event) => e.source, key, start, end)), limit)
      && FirstOf(Limited(Filter(Pick(log.records, Positions(log.byFlow, key)), During(start, end)), limit),
                 Filter(log.records, Wanted((e: Event) => e.flow, key, start, end)), limit)
  {
    var log := Run(h, ops);
    hide Run, Exact, Filter, InRange;
    IndexIsScan(log.byChannel, log.records, ChannelOf(), key, start, end);
    IndexIsScan(log.bySource, log.records, SourceOf(), key, start, end);
    IndexIsScan(log.byFlow, log.records, FlowOf(), key, start, end);
    SameWanted(log.records, ChannelOf(), (e: Event) => e.channel, key, start, end);
    SameWanted(log.records, SourceOf(), (e: Event) => e.source, key, start, end);
    SameWanted(log.records, FlowOf(), (e: Event) => e.flow, key, start, end);
  }

  lemma {:induction false} SameWanted(rs: seq<Record>, f: Event -> string, g: Event -> string, key: string,
                                      start: Option<int>, end: Option<int>)
    requires forall e :: f(e) == g(e)
    ensures Filter(rs, Wanted(f, key, start, end)) == Filter(rs, Wanted(g, key, start, end))
  {
    if rs != [] {
      SameWanted(rs[..|rs| - 1], f, g, key, start, end);
      var r := rs[|rs| - 1];
      assert f(r.event) == g(r.event);
      assert Wanted(f, key, start, end)(r) == Wanted(g, key, start, end)(r);
    }
  }

  // ------------------------------------------------------------------------------------------
  // What submitting and signing leave behind
  // ------------------------------------------------------------------------------------------

  /** A submit appends one record: the event as reported, the signature given, linked to the record before.
      The submit with retries drops the flow and the metadata. */
  lemma SubmittedRecord(h: string -> string, ops: seq<Op>, e: Event, signature: string)
    ensures var before, after := Run(h, ops).records, Run(h, ops + [Submit(e, signature)]).records;
      && |after| == |before| + 1 && after[..|before|] == before
      && var r := after[|before|];
         && r.event == e && r.signature == signature
         && r.prevHash == (if before == [] then "" else before[|before| - 1].hash)
    ensures var before, after := Run(h, ops).records, Run(h, ops + [Retry(e, signature)]).records;
      && |after| == |before| + 1 && after[..|before|] == before
      && var r := after[|before|];
         r.event == e.(flow := "", metadata := map[]) && r.signature == signature
  {
    assert (ops + [Submit(e, signature)])[..|ops|] == ops && (ops + [Retry(e, signature)])[..|ops|] == ops;
    hide Exact, AllVerified, EvidenceProofs.Linked, AddTo, Rendering, InRange;
  }

  lemma {:induction false} LastOfScan(rs: seq<Record>, f: Event -> string, key: string, at: nat)
    requires at < |rs| && f(rs[at].event) == key && forall j | at < j < |rs| :: f(rs[j].event) != key
    ensures var ps := Scan(rs, f, key); ps != [] && ps[|ps| - 1] == at
  {
    var n := |rs| - 1;
    if at < n {
      LastOfScan(rs[..n], f, key, at);
    }
  }

  /** Signing a flow that has records signs the last record of the flow in the whole log, the one VerifyFlow
      asks for a signature, and changes no other record. */
  lemma SignsFlowTail(h: string -> string, ops: seq<Op>, flow: string, signature: string, at: nat)
    requires var rs := Run(h, ops).records;
      && flow != "" && at < |rs| && rs[at].event.flow == flow
      && forall j | at < j < |rs| :: rs[j].event.flow != flow
    ensures var rs, log := Run(h, ops).records, Run(h, ops + [SignFlow(flow, signature)]);
      && log.records == rs[at := rs[at].(signature := signature)]
      && var fs := Pick(log.records, Positions(log.byFlow, flow));
         fs != [] && fs[|fs| - 1] == log.records[at] && fs[|fs| - 1].signature == signature
  {
    hide Exact, AllVerified, EvidenceProofs.Linked, Rendering;
    var before, all := Run(h, ops), ops + [SignFlow(flow, signature)];
    assert all[..|ops|] == ops;
    LastOfScan(before.records, FlowOf(), flow, at);
    FlowScan(before, flow);
    SignKeepsRest(before, flow, signature);
  }

  lemma FlowScan(log: Log, flow: string)
    requires Exact(log.byFlow, log.records, FlowOf()) && flow != ""
    ensures Positions(log.byFlow, flow) == Scan(log.records, FlowOf(), flow)
  {
  }

  // ------------------------------------------------------------------------------------------
  // The flow check
  // ------------------------------------------------------------------------------------------

  predicate DistinctIds(rs: seq<Record>) {
    && (forall i | 0 <= i < |rs| :: '|' !in rs[i].event.id)
    && (forall i, j | 0 <= i < j < |rs| :: rs[i].event.id != rs[j].event.id)
  }

  lemma RenderingFixesId(e: Event, p: string, f: Event, q: string)
    requires Rendering(e, p) == Rendering(f, q) && '|' !in e.id && '|' !in f.id
    ensures e.id == f.id
  {
    var es, fs := Covered(e, p), Covered(f, q);
    NoBars(e.id);
    NoBars(f.id);
    assert |es| == 9 && |fs| == 9;
    assert Join(es) == es[0] + "|" + Join(es[1..]);
    assert Join(fs) == fs[0] + "|" + Join(fs[1..]);
    hide Join, Covered;
    FirstFieldFound(e.id, Join(es[1..]), f.id, Join(fs[1..]));
  }

  /** Different records of a log have different hashes. */
  lemma HashesDiffer(h: string -> string, rs: seq<Record>, i: nat, j: nat)
    requires AllVerified(h, rs) && DistinctIds(rs) && CollisionFree(h, rs, rs) && i < |rs| && j < |rs|
    ensures rs[i].hash == rs[j].hash <==> i == j
  {
    hide Rendering;
    if rs[i].hash == rs[j].hash {
      assert Verified(h, rs[i]) && Verified(h, rs[j]);
      RenderingFixesId(rs[i].event, rs[i].prevHash, rs[j].event, rs[j].prevHash);
    }
  }

  predicate Adjacent(ps: seq<nat>) {
    forall i | 0 < i < |ps| :: ps[i] == ps[i - 1] + 1
  }

  lemma LinkMeansNext(h: string -> string, rs: seq<Record>, a: nat, b: nat)
    requires AllVerified(h, rs) && Linked(rs) && DistinctIds(rs) && CollisionFree(h, rs, rs) && a < b < |rs|
    ensures rs[b].prevHash == rs[a].hash <==> b == a + 1
  {
    hide AllVerified, DistinctIds, CollisionFree;
    assert rs[b].prevHash == rs[b - 1].hash;
    HashesDiffer(h, rs, b - 1, a);
  }

  lemma FlowPositionsRise(log: Log, flow: string)
    requires Exact(log.byFlow, log.records, FlowOf())
    ensures Rising(Positions(log.byFlow, flow), |log.records|)
  {
    ScanRises(log.records, FlowOf(), flow);
  }

  /** In a log built by submits, VerifyFlow's link check passes exactly when the flow's records stand
      next to each other in the whole log. */
  lemma FlowLinkedExactlyWhenAdjacent(h: string -> string, ops: seq<Op>, flow: string)
    requires var rs := Run(h, ops).records; DistinctIds(rs) && CollisionFree(h, rs, rs)
    ensures var log := Run(h, ops);
      FlowLinked(Pick(log.records, Positions(log.byFlow, flow))) <==> Adjacent(Positions(log.byFlow, flow))
  {
    hide Run, Exact, AllVerified, EvidenceProofs.Linked, DistinctIds, CollisionFree, Scan;
    var log := Run(h, ops);
    var rs, ps := log.records, Positions(log.byFlow, flow);
    FlowPositionsRise(log, flow);
    hide Positions, Exact;
    var fs := Pick(rs, ps);
    forall i | 0 < i < |ps|
      ensures fs[i].prevHash == fs[i - 1].hash <==> ps[i] == ps[i - 1] + 1
    {
      assert ps[i - 1] < ps[i];
      LinkMeansNext(h, rs, ps[i - 1], ps[i]);
    }
  }
}
