/** What the hashes of the audit log protect, and that its indexes and its flow check mean what a scan
    of the whole log would say. */
module EvidenceProofs {
  import opened Wrappers
  import opened Evidence

  // ------------------------------------------------------------------------------------------
  // The joined rendering
  // ------------------------------------------------------------------------------------------

  function Bars(s: string): nat {
    if s == "" then 0 else Bars(s[1..]) + if s[0] == '|' then 1 else 0
  }

  lemma {:induction false} BarsOfConcat(a: string, b: string)
    ensures Bars(a + b) == Bars(a) + Bars(b)
  {
    if a == "" {
      assert a + b == b;
    } else {
      BarsOfConcat(a[1..], b);
      assert (a + b)[1..] == a[1..] + b;
    }
  }

  lemma {:induction false} NoBars(s: string)
    ensures Bars(s) == 0 <==> '|' !in s
  {
    if s != "" {
      NoBars(s[1..]);
      assert s == [s[0]] + s[1..];
    }
  }

  /** A first field that is followed by a bar is found again when the number of its own bars is known. */
  lemma FirstFieldFound(a: string, x: string, b: string, y: string)
    requires a + "|" + x == b + "|" + y && Bars(a) == Bars(b)
    ensures a == b && x == y
  {
    var s := a + "|" + x;
    assert s == b + "|" + y;
    if |a| < |b| {
      ShorterHasFewerBars(s, a, x, b, y);
    } else if |b| < |a| {
      ShorterHasFewerBars(s, b, y, a, x);
    }
    assert s[..|a|] == a && s[..|b|] == b && s[|a| + 1..] == x && s[|b| + 1..] == y;
  }

  lemma ShorterHasFewerBars(s: string, a: string, x: string, b: string, y: string)
    requires s == a + "|" + x && s == b + "|" + y && |a| < |b|
    ensures Bars(a) < Bars(b)
  {
    var c := b[|a| + 1..];
    assert b == a + "|" + c by {
      assert b == s[..|b|] && a == s[..|a|] && s[|a|] == '|';
      assert b[..|a|] == a && b[|a|] == '|';
    }
    BarsOfConcat(a + "|", c);
    BarsOfConcat(a, "|");
    assert Bars("|") == 1 by { assert "|"[1..] == ""; }
  }

  /** Two lists of fields of the same length with the same rendering are equal exactly when each field
      has as many bars as its partner. */
  lemma {:induction false} JoinExact(fs: seq<string>, gs: seq<string>)
    requires |fs| == |gs| && Join(fs) == Join(gs)
    ensures fs == gs <==> forall i | 0 <= i < |fs| :: Bars(fs[i]) == Bars(gs[i])
  {
    if |fs| == 1 {
      assert fs == [fs[0]] && gs == [gs[0]];
    } else if |fs| > 1 && forall i | 0 <= i < |fs| :: Bars(fs[i]) == Bars(gs[i]) {
      FirstFieldFound(fs[0], Join(fs[1..]), gs[0], Join(gs[1..]));
      assert forall i | 0 <= i < |fs| - 1 :: fs[1..][i] == fs[i + 1] && gs[1..][i] == gs[i + 1];
      JoinExact(fs[1..], gs[1..]);
      assert fs == [fs[0]] + fs[1..] && gs == [gs[0]] + gs[1..];
    }
  }

  function SumBars(fs: seq<string>): nat {
    if fs == [] then 0 else Bars(fs[0]) + SumBars(fs[1..])
  }

  lemma {:induction false} JoinBars(fs: seq<string>)
    requires fs != []
    ensures Bars(Join(fs)) == SumBars(fs) + |fs| - 1
  {
    hide Bars;
    if |fs| == 1 {
      assert fs[1..] == [];
    } else {
      JoinBars(fs[1..]);
      BarsOfConcat(fs[0] + "|", Join(fs[1..]));
      BarsOfConcat(fs[0], "|");
      OneBar();
    }
  }

  lemma OneBar()
    ensures Bars("|") == 1
  {
    assert "|"[1..] == "";
  }

  lemma {:induction false} SumBarsZero(fs: seq<string>)
    ensures SumBars(fs) == 0 <==> forall i | 0 <= i < |fs| :: Bars(fs[i]) == 0
  {
    if fs != [] {
      SumBarsZero(fs[1..]);
      assert forall i | 0 < i < |fs| :: fs[i] == fs[1..][i - 1];
      assert forall i | 0 <= i < |fs[1..]| :: fs[1..][i] == fs[i + 1];
    }
  }

  lemma JoinTwo(a: string, rest: seq<string>)
    requires rest != []
    ensures Join([a] + rest) == a + "|" + Join(rest)
  {
    assert ([a] + rest)[1..] == rest;
  }

  lemma JoinPair(a: string, b: string)
    ensures Join([a, b]) == a + "|" + b
  {
    assert [a, b][1..] == [b];
  }

  /** A bar inside a field can be moved over into a neighbour. */
  lemma {:induction false} MoveBar(fs: seq<string>, i: nat, k: nat) returns (gs: seq<string>)
    requires |fs| >= 2 && i < |fs| && k < |fs[i]| && fs[i][k] == '|'
    ensures |gs| == |fs| && gs != fs && Join(gs) == Join(fs)
  {
    hide Join;
    var x, y := fs[i][..k], fs[i][k + 1..];
    assert fs[i] == x + "|" + y;
    assert fs == [fs[0]] + fs[1..];
    if i > 0 && |fs| > 2 {
      var hs := MoveBar(fs[1..], i - 1, k);
      gs := [fs[0]] + hs;
      JoinTwo(fs[0], fs[1..]);
      JoinTwo(fs[0], hs);
      assert gs[1..] == hs;
    } else if i > 0 {
      gs := [fs[0] + "|" + x, y];
      assert fs == [fs[0], fs[1]];
      JoinPair(fs[0], fs[1]);
      JoinPair(fs[0] + "|" + x, y);
      assert fs[0] + "|" + (x + "|" + y) == fs[0] + "|" + x + "|" + y;
      assert |gs[1]| < |fs[1]|;
    } else {
      gs := MoveFirst(fs, x, y);
    }
  }

  lemma MoveFirst(fs: seq<string>, x: string, y: string) returns (gs: seq<string>)
    requires |fs| >= 2 && fs[0] == x + "|" + y
    ensures |gs| == |fs| && gs != fs && Join(gs) == Join(fs)
  {
    hide Join;
    var b := y + "|" + fs[1];
    assert fs == [fs[0]] + fs[1..];
    JoinTwo(fs[0], fs[1..]);
    if |fs| == 2 {
      gs := [x, b];
      assert fs[1..] == [fs[1]];
      JoinPair(fs[0], fs[1]);
      JoinPair(x, b);
      assert fs == [fs[0], fs[1]];
      assert x + "|" + y + "|" + fs[1] == x + "|" + (y + "|" + fs[1]);
    } else {
      var rest := fs[2..];
      assert fs[1..] == [fs[1]] + rest;
      gs := [x] + ([b] + rest);
      JoinTwo(x, [b] + rest);
      JoinTwo(b, rest);
      JoinTwo(fs[1], rest);
      assert x + "|" + y + "|" + (fs[1] + "|" + Join(rest)) == x + "|" + (y + "|" + fs[1] + "|" + Join(rest));
    }
    assert |gs[0]| < |fs[0]|;
  }

  /** A list of two or more fields is the only one of its length with its rendering if and only if no
      field holds a bar. */
  lemma RenderingIsUniqueExactly(fs: seq<string>)
    requires |fs| >= 2
    ensures (forall gs | |gs| == |fs| && Join(gs) == Join(fs) :: gs == fs) <==>
            (forall i | 0 <= i < |fs| :: '|' !in fs[i])
  {
    hide Join, Bars;
    if i, k :| 0 <= i < |fs| && 0 <= k < |fs[i]| && fs[i][k] == '|' {
      var gs := MoveBar(fs, i, k);
    } else {
      forall gs | |gs| == |fs| && Join(gs) == Join(fs)
        ensures gs == fs
      {
        BarFreeIsUnique(fs, gs);
      }
    }
  }

  lemma BarFreeIsUnique(fs: seq<string>, gs: seq<string>)
    requires |gs| == |fs| >= 2 && Join(gs) == Join(fs) && forall i | 0 <= i < |fs| :: '|' !in fs[i]
    ensures gs == fs
  {
    hide Join, Bars;
    forall i | 0 <= i < |fs|
      ensures Bars(fs[i]) == 0
    {
      NoBars(fs[i]);
    }
    JoinBars(fs);
    JoinBars(gs);
    SumBarsZero(fs);
    SumBarsZero(gs);
    JoinExact(fs, gs);
  }

  /** A bar inside a field can be moved into the next one without changing the rendering. */
  lemma BarsShift(e: Event, prevHash: string, a: string, b: string, c: string)
    ensures Rendering(e.(source := a + "|" + b, target := c), prevHash)
         == Rendering(e.(source := a, target := b + "|" + c), prevHash)
  {
    var rest := [e.direction, e.channel, e.dataHash, Decimal(Unix(e.time)), prevHash];
    var f, g := [a + "|" + b, c] + rest, [a, b + "|" + c] + rest;
    assert f[1..] == [c] + rest && f[1..][1..] == rest && g[1..] == [b + "|" + c] + rest && g[1..][1..] == rest;
    assert Join(f) == (a + "|" + b) + "|" + (c + "|" + Join(rest));
    assert Join(g) == a + "|" + ((b + "|" + c) + "|" + Join(rest));
    assert Join(f) == Join(g);
    var e1, e2 := e.(source := a + "|" + b, target := c), e.(source := a, target := b + "|" + c);
    TwoFieldsFirst(e1, prevHash, f);
    TwoFieldsFirst(e2, prevHash, g);
  }

  lemma TwoFieldsFirst(e: Event, prevHash: string, f: seq<string>)
    requires f == Covered(e, prevHash)[2..]
    ensures Rendering(e, prevHash) == e.id + "|" + (e.kind + "|" + Join(f))
  {
    var fs := Covered(e, prevHash);
    var gs := fs[1..];
    assert |fs| == 9 && |gs| == 8 && gs[0] == e.kind && gs[1..] == f;
    assert Join(gs) == gs[0] + "|" + Join(gs[1..]);
    assert Join(fs) == fs[0] + "|" + Join(gs);
  }

  // ------------------------------------------------------------------------------------------
  // Decimal numbers
  // ------------------------------------------------------------------------------------------

  function Value(s: string): int
  {
    if s == "" then 0 else Value(s[..|s| - 1]) * 10 + (s[|s| - 1] as int - '0' as int)
  }

  lemma {:induction false} DigitsValue(n: nat)
    ensures Value(Digits(n)) == n && Digits(n) != "" && forall c | c in Digits(n) :: '0' <= c <= '9'
  {
    if n < 10 {
      assert Digits(n)[..0] == "";
    } else {
      DigitsValue(n / 10);
      var d := Digits(n);
      assert d[..|d| - 1] == Digits(n / 10);
    }
  }

  lemma DecimalInjective(m: int, n: int)
    requires Decimal(m) == Decimal(n)
    ensures m == n
  {
    DigitsValue(if m < 0 then -m else m);
    DigitsValue(if n < 0 then -n else n);
    var a, b := Decimal(m), Decimal(n);
    if m < 0 {
      assert a[0] == '-' && a[1..] == Digits(-m);
    }
    if n < 0 {
      assert b[0] == '-' && b[1..] == Digits(-n);
    }
    assert m >= 0 ==> a[0] in a && '0' <= a[0];
    assert n >= 0 ==> b[0] in b && '0' <= b[0];
  }

  /** Whole numbers are written in decimal, with a sign before negative ones. */
  lemma DecimalMeans(n: nat)
    ensures Value(Decimal(n)) == n && (forall c | c in Decimal(n) :: '0' <= c <= '9')
    ensures n > 0 ==> Decimal(0 - n as int) == "-" + Decimal(n)
  {
    DigitsValue(n);
  }

  /** What is hashed: nine fields in this order, with bars between them, the time in whole seconds. */
  lemma RenderingIs(e: Event, prevHash: string, seconds: int)
    requires seconds * 1000000000 <= e.time < (seconds + 1) * 1000000000
    ensures Rendering(e, prevHash) ==
      e.id + "|" + (e.kind + "|" + (e.source + "|" + (e.target + "|" + (e.direction + "|"
      + (e.channel + "|" + (e.dataHash + "|" + (Decimal(seconds) + "|" + prevHash)))))))
  {
    assert Unix(e.time) == seconds;
    hide Decimal, Unix;
    var t := Decimal(seconds);
    assert Covered(e, prevHash) == [e.id] + ([e.kind] + ([e.source] + ([e.target] + ([e.direction]
      + ([e.channel] + ([e.dataHash] + [t, prevHash]))))));
    hide Join, Covered;
    JoinPair(t, prevHash);
    JoinTwo(e.dataHash, [t, prevHash]);
    JoinTwo(e.channel, [e.dataHash] + [t, prevHash]);
    JoinTwo(e.direction, [e.channel] + ([e.dataHash] + [t, prevHash]));
    JoinTwo(e.target, [e.direction] + ([e.channel] + ([e.dataHash] + [t, prevHash])));
    JoinTwo(e.source, [e.target] + ([e.direction] + ([e.channel] + ([e.dataHash] + [t, prevHash]))));
    JoinTwo(e.kind, [e.source] + ([e.target] + ([e.direction] + ([e.channel] + ([e.dataHash] + [t, prevHash])))));
    var rest := [e.target] + ([e.direction] + ([e.channel] + ([e.dataHash] + [t, prevHash])));
    JoinTwo(e.id, [e.kind] + ([e.source] + rest));
  }

  // ------------------------------------------------------------------------------------------
  // Tamper evidence
  // ------------------------------------------------------------------------------------------

  /** All hashed text fields are free of bars. */
  predicate BarFree(r: Record) {
    forall i | 0 <= i < 9 && i != 7 :: '|' !in Covered(r.event, r.prevHash)[i]
  }

  /** The records agree on everything the hash covers; times to the second. */
  predicate Agree(r: Record, s: Record) {
    && r.event.id == s.event.id && r.event.kind == s.event.kind && r.event.source == s.event.source
    && r.event.target == s.event.target && r.event.direction == s.event.direction && r.event.channel == s.event.channel
    && r.event.dataHash == s.event.dataHash && Unix(r.event.time) == Unix(s.event.time) && r.prevHash == s.prevHash
  }

  predicate Linked(rs: seq<Record>) {
    (rs != [] ==> rs[0].prevHash == "") && forall i | 0 < i < |rs| :: rs[i].prevHash == rs[i - 1].hash
  }

  predicate AllVerified(h: string -> string, rs: seq<Record>) {
    forall i | 0 <= i < |rs| :: Verified(h, rs[i])
  }

  predicate AllBarFree(rs: seq<Record>) {
    forall i | 0 <= i < |rs| :: BarFree(rs[i])
  }

  ghost predicate CollisionFree(h: string -> string, rs: seq<Record>, ts: seq<Record>) {
    forall i, j | 0 <= i < |rs| && 0 <= j < |ts| ::
      var x, y := Rendering(rs[i].event, rs[i].prevHash), Rendering(ts[j].event, ts[j].prevHash);
      h(x) == h(y) ==> x == y
  }

  lemma DecimalBars(n: int)
    ensures Bars(Decimal(n)) == 0
  {
    DigitsValue(if n < 0 then -n else n);
    NoBars(Decimal(n));
  }

  lemma SameBarCounts(r: Record, s: Record, i: nat)
    requires BarFree(r) && BarFree(s) && i < 9
    ensures Bars(Covered(r.event, r.prevHash)[i]) == Bars(Covered(s.event, s.prevHash)[i])
  {
    NoBars(Covered(r.event, r.prevHash)[i]);
    NoBars(Covered(s.event, s.prevHash)[i]);
    DecimalBars(Unix(r.event.time));
    DecimalBars(Unix(s.event.time));
  }

  /** Without bars the rendering fixes every covered field. */
  lemma RenderingFixesFields(r: Record, s: Record)
    requires BarFree(r) && BarFree(s)
    requires Rendering(r.event, r.prevHash) == Rendering(s.event, s.prevHash)
    ensures Agree(r, s)
  {
    hide BarFree, Join, Decimal, Bars, Unix;
    var f, g := Covered(r.event, r.prevHash), Covered(s.event, s.prevHash);
    forall i | 0 <= i < 9
      ensures Bars(f[i]) == Bars(g[i])
    {
      SameBarCounts(r, s, i);
    }
    JoinExact(f, g);
    assert f[0] == g[0] && f[1] == g[1] && f[2] == g[2] && f[3] == g[3] && f[4] == g[4] && f[5] == g[5] && f[6] == g[6]
      && f[7] == g[7] && f[8] == g[8];
    DecimalInjective(Unix(r.event.time), Unix(s.event.time));
  }

  ghost predicate AllAgree(rs: seq<Record>, ts: seq<Record>) {
    |rs| == |ts| && forall i | 0 <= i < |rs| :: Agree(rs[i], ts[i])
  }

  lemma LastAgree(h: string -> string, rs: seq<Record>, ts: seq<Record>, i: nat, j: nat)
    requires i < |rs| && j < |ts| && rs[i].hash == ts[j].hash && CollisionFree(h, rs, ts)
    requires AllVerified(h, rs) && AllVerified(h, ts) && AllBarFree(rs) && AllBarFree(ts)
    ensures Agree(rs[i], ts[j])
  {
    hide BarFree, Rendering, Agree;
    RenderingFixesFields(rs[i], ts[j]);
  }

  lemma FrontOk(h: string -> string, rs: seq<Record>, ts: seq<Record>, n: nat, m: nat)
    requires Linked(rs) && AllVerified(h, rs) && AllBarFree(rs) && Linked(ts) && AllVerified(h, ts) && AllBarFree(ts)
    requires n <= |rs| && m <= |ts| && CollisionFree(h, rs, ts)
    ensures Linked(rs[..n]) && AllVerified(h, rs[..n]) && AllBarFree(rs[..n])
    ensures Linked(ts[..m]) && AllVerified(h, ts[..m]) && AllBarFree(ts[..m])
    ensures CollisionFree(h, rs[..n], ts[..m])
  {
    hide BarFree, Rendering, Verified;
  }

  /** Two correctly linked logs whose records all verify and that end in the same hash have the same
      length and agree on every covered field of every record. */
  lemma {:induction false} EndHashFixesLog(h: string -> string, rs: seq<Record>, ts: seq<Record>)
    requires Linked(rs) && AllVerified(h, rs) && AllBarFree(rs)
    requires Linked(ts) && AllVerified(h, ts) && AllBarFree(ts)
    requires CollisionFree(h, rs, ts) && forall x :: h(x) != ""
    requires rs != [] && ts != [] && rs[|rs| - 1].hash == ts[|ts| - 1].hash
    ensures AllAgree(rs, ts)
    decreases |rs|
  {
    hide BarFree, Rendering, CollisionFree, AllBarFree;
    var n, m := |rs| - 1, |ts| - 1;
    LastAgree(h, rs, ts, n, m);
    assert n > 0 ==> Verified(h, rs[n - 1]);
    assert m > 0 ==> Verified(h, ts[m - 1]);
    hide Verified, AllVerified;
    if n > 0 && m > 0 {
      FrontOk(h, rs, ts, n, m);
      EndHashFixesLog(h, rs[..n], ts[..m]);
      FrontsAgree(rs, ts);
    }
  }

  lemma FrontsAgree(rs: seq<Record>, ts: seq<Record>)
    requires rs != [] && ts != [] && AllAgree(rs[..|rs| - 1], ts[..|ts| - 1]) && Agree(rs[|rs| - 1], ts[|ts| - 1])
    ensures AllAgree(rs, ts)
  {
    hide Agree;
    var n := |rs| - 1;
    forall i | 0 <= i < |rs|
      ensures Agree(rs[i], ts[i])
    {
      if i < n {
        assert rs[..n][i] == rs[i] && ts[..n][i] == ts[i];
      }
    }
  }

  /** What the hash does not cover can be changed in any record of a log without VerifyRecord or the
      links noticing: the flow, the metadata, the signature, and the time within its second. */
  lemma UncoveredFieldsUnprotected(h: string -> string, rs: seq<Record>, i: nat, flow: string,
                                   metadata: map<string, string>, signature: string, time: int)
    requires Linked(rs) && AllVerified(h, rs) && i < |rs| && Unix(time) == Unix(rs[i].event.time)
    ensures var e := rs[i].event.(flow := flow, metadata := metadata, time := time);
      var ts := rs[i := rs[i].(event := e, signature := signature)];
      Linked(ts) && AllVerified(h, ts)
  {
    hide Join, Decimal, Unix;
    var r := rs[i];
    var t := r.(event := r.event.(flow := flow, metadata := metadata, time := time), signature := signature);
    assert Covered(t.event, t.prevHash) == Covered(r.event, r.prevHash);
    assert Verified(h, r);
    assert Verified(h, t);
    hide Verified;
    var ts := rs[i := t];
    assert forall j | 0 <= j < |rs| :: ts[j].prevHash == rs[j].prevHash && ts[j].hash == rs[j].hash;
  }

  // ------------------------------------------------------------------------------------------
  // Every run of submits and signatures
  // ------------------------------------------------------------------------------------------

  datatype Op = Submit(event: Event, signature: string) | Retry(event: Event, signature: string)
              | SignFlow(flow: string, signature: string)

  /** The positions of the records whose events have the given key. */
  function Scan(rs: seq<Record>, f: Event -> string, key: string): seq<nat> {
    if rs == [] then []
    else
      var before, n := Scan(rs[..|rs| - 1], f, key), |rs| - 1;
      if f(rs[n].event) == key then before + [n] else before
  }

  function ChannelOf(): Event -> string { (e: Event) => e.channel }
  function SourceOf(): Event -> string { (e: Event) => e.source }
  function FlowOf(): Event -> string { (e: Event) => e.flow }

  ghost predicate Exact(idx: Index, rs: seq<Record>, f: Event -> string) {
    forall key :: Positions(idx, key) == if key == "" then [] else Scan(rs, f, key)
  }

  ghost predicate LogOk(h: string -> string, log: Log) {
    && IndexesInRange(log)
    && AllVerified(h, log.records) && Linked(log.records)
    && log.lastHash == (if log.records == [] then "" else log.records[|log.records| - 1].hash)
    && Exact(log.byChannel, log.records, ChannelOf())
    && Exact(log.bySource, log.records, SourceOf())
    && Exact(log.byFlow, log.records, FlowOf())
  }

  ghost function Next(h: string -> string, log: Log, op: Op): Log
    requires IndexesInRange(log)
  {
    match op
    case Submit(e, signature) => Submitted(h, log, e, signature)
    case Retry(e, signature) => Submitted(h, log, WithoutFlow(e), signature)
    case SignFlow(flow, signature) => Signed(log, flow, signature)
  }

  ghost function Run(h: string -> string, ops: seq<Op>): (log: Log)
    ensures LogOk(h, log)
  {
    if ops == [] then EmptyOk(h); EMPTY
    else
      var log := Run(h, ops[..|ops| - 1]);
      NextOk(h, log, ops[|ops| - 1]);
      Next(h, log, ops[|ops| - 1])
  }

  lemma EmptyOk(h: string -> string)
    ensures LogOk(h, EMPTY)
  {
  }

  lemma ExactGrows(idx: Index, rs: seq<Record>, f: Event -> string, r: Record)
    requires Exact(idx, rs, f)
    ensures Exact(AddTo(idx, f(r.event), |rs|), rs + [r], f)
  {
    var ts := rs + [r];
    assert ts[..|rs|] == rs;
    forall key
      ensures Positions(AddTo(idx, f(r.event), |rs|), key) == if key == "" then [] else Scan(ts, f, key)
    {
      assert Positions(idx, key) == if key == "" then [] else Scan(rs, f, key);
    }
  }

  lemma SubmitLinks(h: string -> string, log: Log, e: Event, signature: string)
    requires LogOk(h, log)
    ensures var l := Submitted(h, log, e, signature);
      AllVerified(h, l.records) && Linked(l.records) && l.lastHash == l.records[|l.records| - 1].hash
  {
    hide Rendering, Exact, IndexesInRange;
    var rs := log.records;
    var ts := Submitted(h, log, e, signature).records;
    assert forall i | 0 <= i < |rs| :: ts[i] == rs[i];
    assert Verified(h, ts[|rs|]);
  }

  lemma SubmitOk(h: string -> string, log: Log, e: Event, signature: string)
    requires LogOk(h, log)
    ensures LogOk(h, Submitted(h, log, e, signature))
  {
    SubmitLinks(h, log, e, signature);
    hide Rendering, Exact, InRange, AllVerified, Linked, AddTo;
    var n := |log.records|;
    var r := Submitted(h, log, e, signature).records[n];
    InRangeGrows(log.byChannel, e.channel, n);
    InRangeGrows(log.bySource, e.source, n);
    InRangeGrows(log.byFlow, e.flow, n);
    ExactGrows(log.byChannel, log.records, ChannelOf(), r);
    ExactGrows(log.bySource, log.records, SourceOf(), r);
    ExactGrows(log.byFlow, log.records, FlowOf(), r);
  }

  lemma {:induction false} ScanSame(rs: seq<Record>, ts: seq<Record>, f: Event -> string, key: string)
    requires |rs| == |ts| && forall i | 0 <= i < |rs| :: rs[i].event == ts[i].event
    ensures Scan(rs, f, key) == Scan(ts, f, key)
  {
    if rs != [] {
      ScanSame(rs[..|rs| - 1], ts[..|rs| - 1], f, key);
    }
  }

  lemma ExactSame(idx: Index, rs: seq<Record>, ts: seq<Record>, f: Event -> string)
    requires Exact(idx, rs, f) && |rs| == |ts| && forall i | 0 <= i < |rs| :: rs[i].event == ts[i].event
    ensures Exact(idx, ts, f)
  {
    forall key
      ensures Positions(idx, key) == if key == "" then [] else Scan(ts, f, key)
    {
      assert Positions(idx, key) == if key == "" then [] else Scan(rs, f, key);
      ScanSame(rs, ts, f, key);
    }
  }

  /** Signing a flow replaces the signature of one record; every record still verifies. */
  lemma SignOk(h: string -> string, log: Log, flow: string, signature: string)
    requires LogOk(h, log)
    ensures LogOk(h, Signed(log, flow, signature))
  {
    hide Rendering, Exact, InRange, Signed;
    var rs, ts := log.records, Signed(log, flow, signature).records;
    SignShape(log, flow, signature);
    assert AllVerified(h, ts) && Linked(ts);
    hide AllVerified, Linked;
    ExactSame(log.byChannel, rs, ts, ChannelOf());
    ExactSame(log.bySource, rs, ts, SourceOf());
    ExactSame(log.byFlow, rs, ts, FlowOf());
    SignKeepsRest(log, flow, signature);
  }

  lemma SignShape(log: Log, flow: string, signature: string)
    requires IndexesInRange(log)
    ensures var rs, ts := log.records, Signed(log, flow, signature).records;
      |ts| == |rs| && forall i | 0 <= i < |rs| :: ts[i] == rs[i].(signature := ts[i].signature)
  {
    var ps := Positions(log.byFlow, flow);
    assert ps != [] ==> ps[|ps| - 1] < |log.records|;
  }

  lemma SignKeepsRest(log: Log, flow: string, signature: string)
    requires IndexesInRange(log)
    ensures var l := Signed(log, flow, signature); l == log.(records := l.records) && |l.records| == |log.records|
  {
  }

  lemma NextOk(h: string -> string, log: Log, op: Op)
    requires LogOk(h, log)
    ensures LogOk(h, Next(h, log, op))
  {
    hide LogOk, Submitted, Signed;
    match op
    case Submit(e, signature) => SubmitOk(h, log, e, signature);
    case Retry(e, signature) => SubmitOk(h, log, WithoutFlow(e), signature);
    case SignFlow(flow, signature) => SignOk(h, log, flow, signature);
  }
}
