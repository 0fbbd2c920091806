/** Multi-hop route configuration (`kernel/server/multi_hop_config.go`): validation, the choice of
    the next hop towards a kernel, and the previous hop on the way back. Routes are kept in a Go
    map, whose iteration order is unspecified, so with several enabled routes the two look-ups are
    relations rather than functions. */
module Routes {
  import opened Wrappers

  datatype Hop = Hop(id: int, from: string, fromAddress: string, to: string, address: string, port: int)

  datatype Route = Route(name: string, hops: seq<Hop>, enabled: bool)

  datatype Verdict = Valid | NoConfig | NoName | NoHops | BadHopId(at: nat) | Broken(at: nat) | BadPort(at: nat)

  datatype NextResult = NoNext | Next(kernel: string, address: string, port: int, index: nat, total: nat)

  datatype PrevResult = NoPrev | Prev(kernel: string, address: string, port: int)

  // ------------------------------------------------------------------------------------------
  // Validation
  // ------------------------------------------------------------------------------------------

  /** Each hop starts where the one before it ends. */
  predicate Contiguous(r: Route) {
    forall i | 0 < i < |r.hops| :: r.hops[i].from == r.hops[i - 1].to
  }

  predicate GoodHop(hops: seq<Hop>, i: nat)
    requires i < |hops|
  {
    && hops[i].id == i + 1
    && 1 <= hops[i].port <= 65535
    && (i > 0 && hops[i - 1].to != "" ==> hops[i].from == hops[i - 1].to)
  }

  predicate ValidRoute(r: Route) {
    r.name != "" && r.hops != [] && forall i | 0 <= i < |r.hops| :: GoodHop(r.hops, i)
  }

  /** Validation implies contiguity exactly where no inner destination is left empty. */
  lemma ValidMeansContiguous(r: Route)
    requires ValidRoute(r)
    ensures Contiguous(r) <==> forall i | 0 < i < |r.hops| :: r.hops[i - 1].to == "" ==> r.hops[i].from == ""
  {
    if forall i | 0 < i < |r.hops| :: r.hops[i - 1].to == "" ==> r.hops[i].from == "" {
      forall i | 0 < i < |r.hops|
        ensures r.hops[i].from == r.hops[i - 1].to
      {
        assert GoodHop(r.hops, i);
      }
    }
  }

  // ------------------------------------------------------------------------------------------
  // The two look-ups
  // ------------------------------------------------------------------------------------------

  /** Hop `i` leaves `cur`, and the route arrives at `target` there or later. */
  predicate Useful(r: Route, cur: string, target: string, i: int) {
    0 <= i < |r.hops| && r.hops[i].from == cur && exists j :: i <= j < |r.hops| && r.hops[j].to == target
  }

  predicate FirstUseful(r: Route, cur: string, target: string, i: int) {
    Useful(r, cur, target, i) && forall k | 0 <= k < i :: !Useful(r, cur, target, k)
  }

  predicate FirstArrival(r: Route, kernel: string, i: int) {
    0 <= i < |r.hops| && r.hops[i].to == kernel && forall k | 0 <= k < i :: r.hops[k].to != kernel
  }

  predicate Arrives(r: Route, kernel: string) {
    exists i :: 0 <= i < |r.hops| && r.hops[i].to == kernel
  }

  ghost predicate NextAllowed(configs: map<string, Route>, cur: string, target: string, res: NextResult) {
    match res
    case NoNext =>
      cur == target || forall n, i | n in configs && configs[n].enabled :: !Useful(configs[n], cur, target, i)
    case Next(kernel, address, port, index, total) =>
      && cur != target
      && exists n, i ::
        && n in configs && configs[n].enabled && FirstUseful(configs[n], cur, target, i)
        && var h := configs[n].hops[i];
           kernel == h.to && address == h.address && port == h.port
           && index == i + 1 && total == |configs[n].hops|
  }

  ghost predicate PrevAllowed(configs: map<string, Route>, kernel: string, res: PrevResult) {
    match res
    case NoPrev =>
      || (exists n :: n in configs && configs[n].enabled && FirstArrival(configs[n], kernel, 0))
      || (forall n | n in configs && configs[n].enabled :: !Arrives(configs[n], kernel))
    case Prev(prev, address, port) =>
      exists n, i ::
        && n in configs && configs[n].enabled && i > 0 && FirstArrival(configs[n], kernel, i)
        && var h := configs[n].hops[i - 1];
           prev == h.to && address == h.address && port == h.port
  }

  method FindUseful(r: Route, cur: string, target: string) returns (found: bool, at: nat)
    ensures found ==> FirstUseful(r, cur, target, at)
    ensures !found ==> forall i :: !Useful(r, cur, target, i)
  {
    for i := 0 to |r.hops|
      invariant forall k | 0 <= k < i :: !Useful(r, cur, target, k)
    {
      if r.hops[i].from == cur {
        if r.hops[i].to == target {
          return true, i;
        }
        for j := i + 1 to |r.hops|
          invariant forall k | i <= k < j :: r.hops[k].to != target
        {
          if r.hops[j].to == target {
            return true, i;
          }
        }
      }
    }
    return false, 0;
  }

  class MultiHopConfigManager {
    var configs: map<string, Route>

    constructor ()
      ensures configs == map[]
    {
      configs := map[];
    }

    method ValidateConfig(config: Option<Route>) returns (v: Verdict)
      ensures v == Valid <==> config.Some? && ValidRoute(config.value)
      ensures v.BadHopId? || v.Broken? || v.BadPort? ==>
        && config.Some? && v.at < |config.value.hops| && !GoodHop(config.value.hops, v.at)
        && forall i | 0 <= i < v.at :: GoodHop(config.value.hops, i)
      ensures v == NoConfig <==> config.None?
      ensures config.Some? && config.value.name == "" <==> v == NoName
      ensures config.Some? && config.value.name != "" && config.value.hops == [] <==> v == NoHops
      ensures v == Valid ==> forall i | 0 <= i < |config.value.hops| ::
        config.value.hops[i].id == i + 1 && 0 < config.value.hops[i].port < 65536
      ensures v.BadHopId? ==> config.value.hops[v.at].id != v.at + 1
      ensures v.Broken? ==>
        && v.at > 0 && config.value.hops[v.at - 1].to != ""
        && config.value.hops[v.at].from != config.value.hops[v.at - 1].to
      ensures v.BadPort? ==> !(0 < config.value.hops[v.at].port < 65536)
    {
      if config.None? {
        return NoConfig;
      }
      var r := config.value;
      if r.name == "" {
        return NoName;
      }
      if |r.hops| == 0 {
        return NoHops;
      }
      var prev := "";
      for i := 0 to |r.hops|
        invariant prev == if i == 0 then "" else r.hops[i - 1].to
        invariant forall k | 0 <= k < i :: GoodHop(r.hops, k)
        invariant forall k | 0 <= k < i :: r.hops[k].id == k + 1 && 0 < r.hops[k].port < 65536
      {
        var hop := r.hops[i];
        assert ValidRoute(r) ==> GoodHop(r.hops, i);
        if hop.id != i + 1 {
          return BadHopId(i);
        }
        if prev != "" && hop.from != prev {
          return Broken(i);
        }
        if hop.port <= 0 || hop.port > 65535 {
          return BadPort(i);
        }
        prev := hop.to;
      }
      return Valid;
    }

    method GetNextHop(cur: string, target: string) returns (res: NextResult)
      ensures NextAllowed(configs, cur, target, res)
    {
      if cur == target {
        return NoNext;
      }
      var todo := configs.Keys;
      while todo != {}
        invariant todo <= configs.Keys
        invariant forall n, i | n in configs && n !in todo && configs[n].enabled :: !Useful(configs[n], cur, target, i)
      {
        var n :| n in todo;
        todo := todo - {n};
        var r := configs[n];
        if r.enabled {
          var found, i := FindUseful(r, cur, target);
          if found {
            return Next(r.hops[i].to, r.hops[i].address, r.hops[i].port, i + 1, |r.hops|);
          }
        }
      }
      return NoNext;
    }

    method GetPreviousHop(kernel: string) returns (res: PrevResult)
      ensures PrevAllowed(configs, kernel, res)
    {
      var todo := configs.Keys;
      while todo != {}
        invariant todo <= configs.Keys
        invariant forall n | n in configs && n !in todo && configs[n].enabled :: !Arrives(configs[n], kernel)
      {
        var n :| n in todo;
        todo := todo - {n};
        var r := configs[n];
        if r.enabled {
          for i := 0 to |r.hops|
            invariant forall k | 0 <= k < i :: r.hops[k].to != kernel
          {
            if r.hops[i].to == kernel {
              assert FirstArrival(r, kernel, i);
              if i > 0 {
                return Prev(r.hops[i - 1].to, r.hops[i - 1].address, r.hops[i - 1].port);
              }
              return NoPrev;
            }
          }
        }
      }
      return NoPrev;
    }
  }

  // ------------------------------------------------------------------------------------------
  // Forwarding reaches its target
  // ------------------------------------------------------------------------------------------

  /** `n` may be chosen as the next kernel on the way from `cur` to `target`. */
  ghost predicate StepTo(configs: map<string, Route>, cur: string, target: string, n: string) {
    exists res :: NextAllowed(configs, cur, target, res) && res.Next? && res.kernel == n
  }

  ghost predicate IsWalk(configs: map<string, Route>, walk: seq<string>, target: string) {
    walk != [] && forall i | 0 <= i < |walk| - 1 :: StepTo(configs, walk[i], target, walk[i + 1])
  }

  /** No next hop is found. */
  ghost predicate Stuck(configs: map<string, Route>, cur: string, target: string) {
    forall m :: !StepTo(configs, cur, target, m)
  }

  ghost predicate EnabledContiguous(configs: map<string, Route>) {
    forall n | n in configs && configs[n].enabled :: Contiguous(configs[n])
  }

  /** Every enabled hop leads to a kernel of higher rank. */
  ghost predicate Rising(configs: map<string, Route>, rank: string -> int) {
    forall n, i | n in configs && configs[n].enabled && 0 <= i < |configs[n].hops| ::
      rank(configs[n].hops[i].from) < rank(configs[n].hops[i].to)
  }

  lemma StepUses(configs: map<string, Route>, cur: string, target: string, n: string) returns (name: string, i: int)
    requires StepTo(configs, cur, target, n)
    ensures cur != target && name in configs && configs[name].enabled
    ensures FirstUseful(configs[name], cur, target, i) && configs[name].hops[i].to == n
  {
    var res :| NextAllowed(configs, cur, target, res) && res.Next? && res.kernel == n;
    name, i :| name in configs && configs[name].enabled && FirstUseful(configs[name], cur, target, i)
      && res.kernel == configs[name].hops[i].to;
  }

  lemma {:induction false} SomeUsefulIsFirst(r: Route, cur: string, target: string, i: nat) returns (k: int)
    requires Useful(r, cur, target, i)
    ensures FirstUseful(r, cur, target, k)
    decreases i
  {
    if j :| 0 <= j < i && Useful(r, cur, target, j) {
      k := SomeUsefulIsFirst(r, cur, target, j);
    } else {
      k := i;
    }
  }

  lemma UsefulGivesStep(configs: map<string, Route>, cur: string, target: string, name: string, i: int)
    requires cur != target && name in configs && configs[name].enabled
    requires FirstUseful(configs[name], cur, target, i)
    ensures StepTo(configs, cur, target, configs[name].hops[i].to)
  {
    var h := configs[name].hops[i];
    assert NextAllowed(configs, cur, target, Next(h.to, h.address, h.port, i + 1, |configs[name].hops|));
  }

  /** Whichever route was picked, the kernel reached is the target or can itself go on. */
  lemma NextHopGoesOn(configs: map<string, Route>, cur: string, target: string, n: string)
    requires EnabledContiguous(configs) && StepTo(configs, cur, target, n)
    ensures n == target || exists m :: StepTo(configs, n, target, m)
  {
    var name, i := StepUses(configs, cur, target, n);
    var r := configs[name];
    if n != target {
      var j :| i <= j < |r.hops| && r.hops[j].to == target;
      assert r.hops[i + 1].from == n;
      assert Useful(r, n, target, i + 1);
      var k := SomeUsefulIsFirst(r, n, target, i + 1);
      UsefulGivesStep(configs, n, target, name, k);
    }
  }

  lemma {:induction false} RouteRises(r: Route, rank: string -> int, i: nat, j: nat)
    requires Contiguous(r) && i <= j < |r.hops|
    requires forall k | 0 <= k < |r.hops| :: rank(r.hops[k].from) < rank(r.hops[k].to)
    ensures rank(r.hops[i].to) <= rank(r.hops[j].to)
  {
    if i < j {
      RouteRises(r, rank, i, j - 1);
      assert r.hops[j].from == r.hops[j - 1].to;
    }
  }

  lemma StepRises(configs: map<string, Route>, rank: string -> int, cur: string, target: string, n: string)
    requires EnabledContiguous(configs) && Rising(configs, rank) && StepTo(configs, cur, target, n)
    ensures rank(cur) < rank(n) <= rank(target)
  {
    var name, i := StepUses(configs, cur, target, n);
    var r := configs[name];
    var j :| i <= j < |r.hops| && r.hops[j].to == target;
    RouteRises(r, rank, i, j);
  }

  lemma {:induction false} WalkRises(configs: map<string, Route>, rank: string -> int, walk: seq<string>,
                                     target: string)
    requires EnabledContiguous(configs) && Rising(configs, rank) && IsWalk(configs, walk, target)
    ensures rank(walk[0]) + |walk| - 1 <= rank(walk[|walk| - 1])
    ensures |walk| > 1 ==> rank(walk[|walk| - 1]) <= rank(target)
  {
    var n := |walk| - 1;
    if n > 0 {
      assert IsWalk(configs, walk[..n], target);
      WalkRises(configs, rank, walk[..n], target);
      StepRises(configs, rank, walk[n - 1], target, walk[n]);
    }
  }

  /** With enabled contiguous routes whose hops rise in some order, and whichever route is picked at
      each kernel: no walk is longer than the rise from its start to the target, and a walk that has
      left its start and cannot go on has arrived. */
  lemma ForwardingArrives(configs: map<string, Route>, rank: string -> int, walk: seq<string>, target: string)
    requires EnabledContiguous(configs) && Rising(configs, rank)
    requires IsWalk(configs, walk, target) && |walk| > 1
    ensures |walk| - 1 <= rank(target) - rank(walk[0])
    ensures Stuck(configs, walk[|walk| - 1], target) <==> walk[|walk| - 1] == target
  {
    var n := |walk| - 1;
    WalkRises(configs, rank, walk, target);
    NextHopGoesOn(configs, walk[n - 1], target, walk[n]);
  }

  // ------------------------------------------------------------------------------------------
  // A single route
  // ------------------------------------------------------------------------------------------

  /** The kernels of a route in order: where the first hop starts, then every destination. */
  function Path(r: Route): seq<string> {
    if r.hops == [] then [] else [r.hops[0].from] + seq(|r.hops|, i requires 0 <= i < |r.hops| => r.hops[i].to)
  }

  ghost predicate DistinctKernels(r: Route) {
    forall i, j | 0 <= i < j < |Path(r)| :: Path(r)[i] != Path(r)[j]
  }

  /** The only enabled route is `r`. */
  ghost predicate OnlyEnabled(configs: map<string, Route>, r: Route) {
    && r.enabled
    && (exists n :: n in configs && configs[n] == r)
    && (forall n | n in configs && configs[n].enabled :: configs[n] == r)
  }

  lemma PathEnds(r: Route, i: nat)
    requires Contiguous(r) && i < |r.hops|
    ensures r.hops[i].from == Path(r)[i] && r.hops[i].to == Path(r)[i + 1]
  {
  }

  lemma LeavesOnce(r: Route, a: nat, i: int)
    requires Contiguous(r) && DistinctKernels(r) && a < |Path(r)| && 0 <= i < |r.hops| && r.hops[i].from == Path(r)[a]
    ensures i == a
  {
    PathEnds(r, i);
  }

  lemma FirstOnPath(r: Route, a: nat, b: nat)
    requires Contiguous(r) && DistinctKernels(r) && a < b < |Path(r)|
    ensures forall i :: FirstUseful(r, Path(r)[a], Path(r)[b], i) <==> i == a
  {
    var from, to := Path(r)[a], Path(r)[b];
    PathEnds(r, a);
    PathEnds(r, b - 1);
    hide Contiguous, DistinctKernels, Path;
    assert r.hops[b - 1].to == to;
    assert Useful(r, from, to, a);
    forall i | 0 <= i < |r.hops| && r.hops[i].from == from
      ensures i == a
    {
      LeavesOnce(r, a, i);
    }
  }

  /** On a single contiguous route of distinct kernels the next hop is the next kernel of the path. */
  lemma NextFollowsPath(configs: map<string, Route>, r: Route, a: nat, b: nat, n: string)
    requires OnlyEnabled(configs, r) && Contiguous(r) && DistinctKernels(r)
    requires a < b < |Path(r)|
    ensures StepTo(configs, Path(r)[a], Path(r)[b], n) <==> n == Path(r)[a + 1]
  {
    hide NextAllowed, StepTo;
    var p := Path(r);
    FirstOnPath(r, a, b);
    PathEnds(r, a);
    assert p[a] != p[b];
    hide Path, Contiguous, DistinctKernels, FirstUseful;
    if StepTo(configs, p[a], p[b], n) {
      var name, i := StepUses(configs, p[a], p[b], n);
      assert i == a;
    }
    var name :| name in configs && configs[name] == r;
    UsefulGivesStep(configs, p[a], p[b], name, a);
  }

  /** The whole answer there: kernel, address and port of the hop that leaves position a, its number
      counted from one and the length of the route. */
  lemma NextAnswersExactly(configs: map<string, Route>, r: Route, a: nat, b: nat, res: NextResult)
    requires OnlyEnabled(configs, r) && Contiguous(r) && DistinctKernels(r)
    requires a < b < |Path(r)|
    ensures NextAllowed(configs, Path(r)[a], Path(r)[b], res) <==>
      res == Next(Path(r)[a + 1], r.hops[a].address, r.hops[a].port, a + 1, |r.hops|)
  {
    var p := Path(r);
    FirstOnPath(r, a, b);
    PathEnds(r, a);
    assert p[a] != p[b];
    hide Path, Contiguous, DistinctKernels;
    var name :| name in configs && configs[name] == r;
    assert FirstUseful(r, p[a], p[b], a);
    assert Useful(configs[name], p[a], p[b], a);
    hide Useful;
  }

  /** From position a such a route leads nowhere but to the kernels after it. */
  lemma NoWay(r: Route, a: nat, k: string)
    requires Contiguous(r) && DistinctKernels(r) && a < |Path(r)| && forall i | a < i < |Path(r)| :: Path(r)[i] != k
    ensures forall i :: !Useful(r, Path(r)[a], k, i)
  {
    forall m | a <= m < |r.hops|
      ensures r.hops[m].to != k
    {
      PathEnds(r, m);
    }
    var from := Path(r)[a];
    forall i | 0 <= i < |r.hops| && r.hops[i].from == from
      ensures i == a
    {
      LeavesOnce(r, a, i);
    }
    hide Path, DistinctKernels, Contiguous;
  }

  /** No next hop leads back along such a route. */
  lemma NoStepBack(configs: map<string, Route>, r: Route, a: nat, b: nat, res: NextResult)
    requires OnlyEnabled(configs, r) && Contiguous(r) && DistinctKernels(r)
    requires b <= a < |Path(r)|
    requires NextAllowed(configs, Path(r)[a], Path(r)[b], res)
    ensures res == NoNext
  {
    NoWay(r, a, Path(r)[b]);
    hide Useful, Contiguous, DistinctKernels, Path;
  }

  /** The previous hop of the kernel at position j >= 2 is the one before it on the path; the first
      hop's destination has none. */
  lemma PrevFollowsPath(configs: map<string, Route>, r: Route, j: nat, res: PrevResult)
    requires OnlyEnabled(configs, r) && Contiguous(r) && DistinctKernels(r)
    requires 0 < j < |Path(r)| && PrevAllowed(configs, Path(r)[j], res)
    ensures j == 1 ==> res == NoPrev
    ensures j > 1 ==> res == Prev(Path(r)[j - 1], r.hops[j - 2].address, r.hops[j - 2].port)
  {
    var p := Path(r);
    assert forall i | 0 <= i < |r.hops| :: r.hops[i].to == p[i + 1];
    assert forall i | FirstArrival(r, p[j], i) :: i == j - 1;
    assert r.hops[j - 1].to == p[j];
    assert Arrives(r, p[j]);
    var n :| n in configs && configs[n] == r;
  }

  // ------------------------------------------------------------------------------------------
  // A single route that may pass kernels repeatedly
  // ------------------------------------------------------------------------------------------

  /** On any single route, contiguous or not, the way back from a kernel is by the hop before the first one
      that arrives there; there is none if that is the first hop of all, or if no hop arrives. */
  lemma PrevOnAnyRoute(configs: map<string, Route>, r: Route, kernel: string, i: nat, res: PrevResult)
    requires OnlyEnabled(configs, r) && i <= |r.hops| && (i < |r.hops| ==> r.hops[i].to == kernel)
    requires forall k | 0 <= k < i :: r.hops[k].to != kernel
    ensures PrevAllowed(configs, kernel, res) <==>
      res == if 0 < i < |r.hops| then Prev(r.hops[i - 1].to, r.hops[i - 1].address, r.hops[i - 1].port) else NoPrev
  {
    var n :| n in configs && configs[n] == r;
    if i < |r.hops| {
      assert FirstArrival(r, kernel, i) && forall j | FirstArrival(r, kernel, j) :: j == i;
    }
  }

  /** Where to go next: by the first hop that leaves the kernel and has the target at its end or later. */
  lemma NextOnAnyRoute(configs: map<string, Route>, r: Route, cur: string, target: string, i: nat, j: nat,
                       res: NextResult)
    requires OnlyEnabled(configs, r) && cur != target && i <= j < |r.hops|
    requires r.hops[i].from == cur && r.hops[j].to == target
    requires forall k | 0 <= k < i && r.hops[k].from == cur :: NotLater(r, k, target)
    ensures NextAllowed(configs, cur, target, res) <==>
      res == Next(r.hops[i].to, r.hops[i].address, r.hops[i].port, i + 1, |r.hops|)
  {
    var n :| n in configs && configs[n] == r;
    assert Useful(r, cur, target, i);
    assert FirstUseful(r, cur, target, i) && forall k | FirstUseful(r, cur, target, k) :: k == i;
    hide Useful;
  }

  /** No hop from the `k`th on arrives at `target`. */
  predicate NotLater(r: Route, k: nat, target: string) {
    forall l | k <= l < |r.hops| :: r.hops[l].to != target
  }

  /** The route reaches `t` for the first time at position f, and does not start there. */
  ghost predicate FirstReaches(p: seq<string>, t: string, f: nat) {
    0 < f < |p| && p[f] == t && forall i | 0 <= i < f :: p[i] != t
  }

  /** The first `n` kernels are pairwise distinct. */
  predicate DistinctFirst(p: seq<string>, n: nat)
    requires n <= |p|
  {
    forall i, j | 0 <= i < j < n :: p[i] != p[j]
  }

  /** Walks towards `t` that start at `from`. */
  ghost predicate IsWalkFrom(configs: map<string, Route>, walk: seq<string>, from: string, t: string) {
    walk != [] && walk[0] == from && IsWalk(configs, walk, t)
  }

  ghost predicate BoundedBy(configs: map<string, Route>, from: string, t: string, b: nat) {
    forall walk | IsWalkFrom(configs, walk, from, t) :: |walk| <= b
  }

  /** The hop at the first occurrence of a kernel before the target is the first useful one. */
  lemma FirstOccurrenceUseful(r: Route, t: string, f: nat, i: nat)
    requires Contiguous(r) && FirstReaches(Path(r), t, f) && i < f
    requires forall k | 0 <= k < i :: Path(r)[k] != Path(r)[i]
    ensures forall j :: FirstUseful(r, Path(r)[i], t, j) <==> j == i
  {
    var p := Path(r);
    PathEnds(r, i);
    PathEnds(r, f - 1);
    forall k | 0 <= k < i
      ensures r.hops[k].from != p[i]
    {
      PathEnds(r, k);
    }
    hide Path, Contiguous;
    assert r.hops[f - 1].to == t;
    assert Useful(r, p[i], t, i);
  }

  /** So the step from there is exactly to the next kernel. */
  lemma StepFromFirstOccurrence(configs: map<string, Route>, r: Route, t: string, f: nat, i: nat, x: string)
    requires OnlyEnabled(configs, r) && Contiguous(r) && FirstReaches(Path(r), t, f) && i < f
    requires forall k | 0 <= k < i :: Path(r)[k] != Path(r)[i]
    ensures StepTo(configs, Path(r)[i], t, x) <==> x == Path(r)[i + 1]
  {
    hide NextAllowed, StepTo;
    var p := Path(r);
    FirstOccurrenceUseful(r, t, f, i);
    PathEnds(r, i);
    assert p[i] != t;
    hide Path, Contiguous, FirstUseful, FirstReaches;
    if StepTo(configs, p[i], t, x) {
      var name, j := StepUses(configs, p[i], t, x);
      assert j == i;
    }
    var name :| name in configs && configs[name] == r;
    UsefulGivesStep(configs, p[i], t, name, i);
  }

  lemma NoStepAtTarget(configs: map<string, Route>, t: string)
    ensures Stuck(configs, t, t)
  {
  }

  /** Where the kernels up to the target are distinct, every walk is a beginning of the path. */
  lemma {:induction false} WalkFollowsPath(configs: map<string, Route>, r: Route, t: string, f: nat, walk: seq<string>)
    requires OnlyEnabled(configs, r) && Contiguous(r) && FirstReaches(Path(r), t, f) && DistinctFirst(Path(r), f)
    requires IsWalkFrom(configs, walk, Path(r)[0], t)
    ensures |walk| <= f + 1 && walk == Path(r)[..|walk|]
  {
    hide StepTo, Path, Contiguous, OnlyEnabled;
    var p, n := Path(r), |walk| - 1;
    if n > 0 {
      assert IsWalk(configs, walk[..n], t);
      WalkFollowsPath(configs, r, t, f, walk[..n]);
      assert walk[n - 1] == walk[..n][n - 1] == p[n - 1];
      assert StepTo(configs, walk[n - 1], t, walk[n]);
      if n == f + 1 {
        NoStepAtTarget(configs, t);
        assert false;
      } else {
        StepFromFirstOccurrence(configs, r, t, f, n - 1, walk[n]);
        assert p[..n + 1] == p[..n] + [p[n]];
      }
    }
  }

  lemma WalkStopsAtTarget(configs: map<string, Route>, r: Route, t: string, f: nat, walk: seq<string>)
    requires OnlyEnabled(configs, r) && Contiguous(r) && FirstReaches(Path(r), t, f) && DistinctFirst(Path(r), f)
    requires IsWalkFrom(configs, walk, Path(r)[0], t)
    ensures Stuck(configs, walk[|walk| - 1], t) <==> walk[|walk| - 1] == t
  {
    hide StepTo, Path, Contiguous, OnlyEnabled;
    WalkFollowsPath(configs, r, t, f, walk);
    var p, n := Path(r), |walk| - 1;
    assert walk[n] == p[n];
    NoStepAtTarget(configs, t);
    if n < f {
      StepFromFirstOccurrence(configs, r, t, f, n, p[n + 1]);
    }
  }

  /** The first repetition: p[b] is the first kernel met before, at position a. */
  lemma {:induction false} FirstRepetition(p: seq<string>, n: nat) returns (a: nat, b: nat)
    requires n <= |p| && !DistinctFirst(p, n)
    ensures a < b < n && p[a] == p[b] && DistinctFirst(p, b)
  {
    if !DistinctFirst(p, n - 1) {
      a, b := FirstRepetition(p, n - 1);
    } else {
      b := n - 1;
      var i, j :| 0 <= i < j < n && p[i] == p[j];
      a := i;
    }
  }

  /** Positions of the endless walk: up to the repetition, then round and round. */
  function Round(a: nat, b: nat, k: nat): (i: nat)
    requires a < b
    ensures i < b
  {
    if k == 0 then 0
    else
      var i := Round(a, b, k - 1);
      if i + 1 == b then a else i + 1
  }

  function RoundWalk(p: seq<string>, a: nat, b: nat, n: nat): (walk: seq<string>)
    requires a < b <= |p|
    ensures |walk| == n + 1
  {
    seq(n + 1, k requires 0 <= k => p[Round(a, b, k)])
  }

  lemma RoundWalkIsWalk(configs: map<string, Route>, r: Route, t: string, f: nat, a: nat, b: nat, n: nat)
    requires OnlyEnabled(configs, r) && Contiguous(r) && FirstReaches(Path(r), t, f)
    requires a < b < f && Path(r)[a] == Path(r)[b] && DistinctFirst(Path(r), b)
    ensures IsWalkFrom(configs, RoundWalk(Path(r), a, b, n), Path(r)[0], t)
    ensures t !in RoundWalk(Path(r), a, b, n)
  {
    hide StepTo, Path, Contiguous, OnlyEnabled;
    var p := Path(r);
    var walk := RoundWalk(p, a, b, n);
    forall k | 0 <= k < n
      ensures StepTo(configs, walk[k], t, walk[k + 1])
    {
      var i := Round(a, b, k);
      StepFromFirstOccurrence(configs, r, t, f, i, p[i + 1]);
      assert walk[k] == p[i] && walk[k + 1] == p[Round(a, b, k + 1)];
    }
  }

  /** Forwarding along a single contiguous route, which may pass kernels repeatedly, from its start
      towards a kernel it reaches: every walk is bounded if and only if the kernels before the first
      arrival are pairwise distinct. Then walks follow the path and stop exactly at the target. Otherwise
      there is a walk of every length that never gets there. */
  lemma SingleRouteArrivesExactly(configs: map<string, Route>, r: Route, t: string, f: nat)
    requires OnlyEnabled(configs, r) && Contiguous(r) && FirstReaches(Path(r), t, f)
    ensures (exists b :: BoundedBy(configs, Path(r)[0], t, b)) <==> DistinctFirst(Path(r), f)
    ensures DistinctFirst(Path(r), f) ==> forall walk | IsWalkFrom(configs, walk, Path(r)[0], t) ::
      walk <= Path(r)[..f + 1] && (Stuck(configs, walk[|walk| - 1], t) <==> walk == Path(r)[..f + 1])
    ensures !DistinctFirst(Path(r), f) ==> forall n: nat :: HasWalkAvoiding(configs, Path(r)[0], t, n)
  {
    hide IsWalk, Path, Contiguous, OnlyEnabled, Stuck;
    if DistinctFirst(Path(r), f) {
      forall walk | IsWalkFrom(configs, walk, Path(r)[0], t)
        ensures |walk| <= f + 1
        ensures walk <= Path(r)[..f + 1] && (Stuck(configs, walk[|walk| - 1], t) <==> walk == Path(r)[..f + 1])
      {
        DistinctWalk(configs, r, t, f, walk);
      }
      assert BoundedBy(configs, Path(r)[0], t, f + 1);
    } else {
      forall n: nat
        ensures HasWalkAvoiding(configs, Path(r)[0], t, n)
      {
        LongWalk(configs, r, t, f, n);
      }
      forall b: nat
        ensures !BoundedBy(configs, Path(r)[0], t, b)
      {
        assert HasWalkAvoiding(configs, Path(r)[0], t, b);
      }
    }
  }

  lemma DistinctWalk(configs: map<string, Route>, r: Route, t: string, f: nat, walk: seq<string>)
    requires OnlyEnabled(configs, r) && Contiguous(r) && FirstReaches(Path(r), t, f) && DistinctFirst(Path(r), f)
    requires IsWalkFrom(configs, walk, Path(r)[0], t)
    ensures |walk| <= f + 1 && walk <= Path(r)[..f + 1]
    ensures Stuck(configs, walk[|walk| - 1], t) <==> walk == Path(r)[..f + 1]
  {
    hide IsWalk, Path, Contiguous, OnlyEnabled, Stuck;
    WalkFollowsPath(configs, r, t, f, walk);
    WalkStopsAtTarget(configs, r, t, f, walk);
    var p, n := Path(r), |walk| - 1;
    assert walk[n] == p[n];
  }

  /** Some walk of n steps never meets the target. */
  ghost predicate HasWalkAvoiding(configs: map<string, Route>, from: string, t: string, n: nat) {
    exists walk :: IsWalkFrom(configs, walk, from, t) && |walk| == n + 1 && t !in walk
  }

  lemma LongWalk(configs: map<string, Route>, r: Route, t: string, f: nat, n: nat)
    requires OnlyEnabled(configs, r) && Contiguous(r) && FirstReaches(Path(r), t, f) && !DistinctFirst(Path(r), f)
    ensures HasWalkAvoiding(configs, Path(r)[0], t, n)
  {
    hide IsWalk, Path, Contiguous, OnlyEnabled;
    var a, b := FirstRepetition(Path(r), f);
    RoundWalkIsWalk(configs, r, t, f, a, b, n);
  }

  // --- an instance ---

  function LoopRoute(): Route {
    Route("r", [Hop(1, "A", "", "B", "", 1), Hop(2, "B", "", "A", "", 1), Hop(3, "A", "", "T", "", 1)], true)
  }

  /** Validation accepts a route that does not arrive. */
  lemma ValidRouteMayLoop(n: nat)
    ensures ValidRoute(LoopRoute()) && Contiguous(LoopRoute())
    ensures HasWalkAvoiding(map["r" := LoopRoute()], "A", "T", n)
  {
    var r := LoopRoute();
    var p := Path(r);
    assert p == ["A", "B", "A", "T"];
    assert "A"[0] != "T"[0] && "B"[0] != "T"[0];
    assert FirstReaches(p, "T", 3);
    assert p[0] == p[2];
    hide ValidRoute, Contiguous, Path;
    LoopIsOnly();
    LoopRouteIsValid();
    LongWalk(map["r" := r], r, "T", 3, n);
  }

  lemma LoopIsOnly()
    ensures OnlyEnabled(map["r" := LoopRoute()], LoopRoute())
  {
    var configs := map["r" := LoopRoute()];
    assert "r" in configs && configs["r"] == LoopRoute();
  }

  lemma LoopRouteIsValid()
    ensures ValidRoute(LoopRoute()) && Contiguous(LoopRoute())
  {
  }
}
