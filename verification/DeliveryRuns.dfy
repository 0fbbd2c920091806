/** Delivery on one kernel over time: pushes, distribution, subscriptions and connectors coming and going
    in any order, on an active channel whose lists stay the same. The connectors' own buffers belong to the
    kernel and are shared by all its channels, so other channels fill and empty them as well. */
module DeliveryRuns {
  import opened Names
  import opened Delivery
  import X = DeliveryExact
  import N = Negotiation

  /** The channel and the connectors' buffers as far as delivery changes them. `past` records what the
      ended subscriptions of a connector had been sent. */
  datatype State = State(
    subscribers: map<string, seq<Packet>>, past: map<string, seq<Packet>>, queue: seq<Packet>, buffer: seq<Packet>,
    online: set<string>, buffers: Buffers)

  /** What stays the same. */
  datatype Fixed = Fixed(kernel: string, senders: seq<string>, receivers: seq<string>, remote: map<string, string>)

  function ViewOf(l: Fixed, s: State): View {
    View(l.kernel, N.Active, l.senders, l.receivers, l.remote, s.subscribers.Keys, s.online, |s.buffer|)
  }

  datatype Step =
    | Push(p: Packet, prev: string, next: map<string, string>, room: bool)
    | Distribute
    | Subscribe(n: string)
    | Recover(n: string, isRestart: bool)
    | Unsubscribe(n: string)
    | Online(n: string)
    | Offline(n: string)
    | KeepElsewhere(n: string, q: Packet)  // a push on another channel buffers q for n
    | DrainElsewhere(n: string)            // a subscription of n on another channel takes its buffer

  ghost function Pushed(l: Fixed, s: State, p: Packet, prev: string, next: map<string, string>, room: bool): Outcome {
    Delivery.Push(ViewOf(l, s), p, false, prev, next, room)
  }

  ghost function AfterPush(s: State, o: Outcome, p: Packet): State {
    s.(queue := s.queue + (if o.queued then [p] else []),
       buffer := s.buffer + (if o.held then [HeldCopy(p)] else []),
       buffers := BufferAll(s.buffers, o.absent, p))
  }

  function StreamOf(s: State, n: string): seq<Packet> {
    if n in s.subscribers then s.subscribers[n] else []
  }

  function PastOf(s: State, n: string): seq<Packet> {
    if n in s.past then s.past[n] else []
  }

  /** A subscription ends, if there is one: what it was sent becomes past. */
  function Ended(s: State, n: string): State {
    s.(subscribers := s.subscribers - {n}, past := s.past[n := PastOf(s, n) + StreamOf(s, n)])
  }

  /** A subscription begins, in place of an earlier one, with what was kept. */
  ghost function Join(l: Fixed, s: State, n: string, kept: seq<Packet>): State {
    var t := Ended(s, n);
    t.(subscribers := t.subscribers[n := Passed(l.senders, l.receivers, s.buffer + kept, n)])
  }

  ghost predicate MaySubscribe(l: Fixed, s: State, n: string) {
    (Lists(l.receivers, n) || Lists(l.senders, n)) && n !in s.subscribers
  }

  ghost function Drained(l: Fixed, s: State, n: string): State {
    Join(l, s, n, BufferOf(s.buffers, n)).(buffers := s.buffers[n := []])
  }

  ghost function AfterDistribute(l: Fixed, s: State): State {
    if s.queue == [] then s
    else s.(queue := s.queue[1..], subscribers := Distributed(l.senders, l.receivers, s.subscribers, s.queue[0]))
  }

  ghost function Next(l: Fixed, s: State, step: Step): State {
    match step
    case Push(p, prev, next, room) => AfterPush(s, Pushed(l, s, p, prev, next, room), p)
    case Distribute => AfterDistribute(l, s)
    case Subscribe(n) => if MaySubscribe(l, s, n) then Drained(l, s, n) else s
    case Recover(n, isRestart) => if isRestart then Drained(l, s, n) else Join(l, s, n, [])
    case Unsubscribe(n) => Ended(s, n)
    case Online(n) => s.(online := s.online + {n})
    case Offline(n) => s.(online := s.online - {n})
    case KeepElsewhere(n, q) => s.(buffers := Buffered(s.buffers, n, q))
    case DrainElsewhere(n) => s.(buffers := s.buffers[n := []])
  }

  ghost function Run(l: Fixed, s: State, steps: seq<Step>): State {
    if steps == [] then s else Next(l, Run(l, s, steps[..|steps| - 1]), steps[|steps| - 1])
  }

  // ------------------------------------------------------------------------------------------
  // Where a packet is
  // ------------------------------------------------------------------------------------------

  /** The same packet up to the marks that buffering drops. */
  predicate Copy(q: Packet, p: Packet) {
    OfflineCopy(q) == OfflineCopy(p)
  }

  predicate HasCopy(qs: seq<Packet>, p: Packet) {
    exists i :: 0 <= i < |qs| && Copy(qs[i], p)
  }

  /** Connector `n` has been sent the packet, in a standing or an ended subscription. */
  predicate Sent(s: State, n: string, p: Packet) {
    HasCopy(StreamOf(s, n), p) || HasCopy(PastOf(s, n), p)
  }

  /** The packet is in the queue, in the channel's buffer or in the buffer of `n`. */
  predicate Waits(s: State, n: string, p: Packet) {
    HasCopy(s.queue, p) || HasCopy(s.buffer, p) || HasCopy(BufferOf(s.buffers, n), p)
  }

  predicate Present(s: State, n: string, p: Packet) {
    Sent(s, n, p) || Waits(s, n, p)
  }

  predicate Bounded(s: State, n: string) {
    |BufferOf(s.buffers, n)| <= MAX_OFFLINE
  }

  function Count(names: seq<string>, n: string): nat {
    if names == [] then 0 else Count(names[..|names| - 1], n) + if names[|names| - 1] == n then 1 else 0
  }

  /** What is left of a buffer after k more packets. */
  function Survivors(mine: seq<Packet>, k: nat): seq<Packet> {
    if |mine| + k <= MAX_OFFLINE then mine
    else if k >= MAX_OFFLINE then []
    else mine[|mine| + k - MAX_OFFLINE..]
  }

  /** The step loses the packet for `n`, to which it was not sent: the queue hands out the only copy while
      `n` is not subscribed; or the only copies are the oldest ones of a full buffer of `n`, which a push
      on this or another channel drops; or they are all in that buffer and `n` subscribes elsewhere. */
  ghost predicate Loses(l: Fixed, s: State, step: Step, n: string, p: Packet) {
    && !Sent(s, n, p) && !HasCopy(s.buffer, p)
    && match step
       case Distribute =>
         && n !in s.subscribers && !HasCopy(BufferOf(s.buffers, n), p)
         && s.queue != [] && Copy(s.queue[0], p) && !HasCopy(s.queue[1..], p)
       case Push(q, prev, next, room) =>
         var o := Pushed(l, s, q, prev, next, room);
         && !HasCopy(s.queue, p) && !HasCopy(Survivors(BufferOf(s.buffers, n), Count(o.absent, n)), p)
         && !(Copy(q, p) && (o.queued || o.held || n in o.absent))
       case KeepElsewhere(m, q) =>
         m == n && !HasCopy(s.queue, p) && !HasCopy(Survivors(BufferOf(s.buffers, n), 1), p) && !Copy(q, p)
       case DrainElsewhere(m) => m == n && !HasCopy(s.queue, p)
       case _ => false
  }

  ghost predicate NeverLoses(l: Fixed, s: State, steps: seq<Step>, n: string, p: Packet) {
    forall i | 0 <= i < |steps| :: !Loses(l, Run(l, s, steps[..i]), steps[i], n, p)
  }

  /** The step brings the packet, or a copy of it, once more. */
  predicate Repeats(step: Step, p: Packet) {
    (step.Push? && Copy(step.p, p)) || (step.KeepElsewhere? && Copy(step.q, p))
  }

  predicate NotRepeated(steps: seq<Step>, p: Packet) {
    forall i | 0 <= i < |steps| :: !Repeats(steps[i], p)
  }

  /** A data packet, broadcast or directed, that the subscriber `n` is to be sent. */
  ghost predicate For(l: Fixed, p: Packet, n: string) {
    !p.isAck && p.kind == Data && Receives(l.senders, l.receivers, p, n)
  }

  // --- copies ---

  lemma CopiesPass(l: Fixed, p: Packet, n: string, q: Packet)
    requires For(l, p, n) && Copy(q, p)
    ensures Receives(l.senders, l.receivers, q, n)
  {
    hide Named;
    assert q.sender == OfflineCopy(q).sender == p.sender;
    assert q.senderKernel == OfflineCopy(q).senderKernel == p.senderKernel;
    assert q.targets == OfflineCopy(q).targets == p.targets;
  }

  lemma KeptIsCopy(q: Packet, p: Packet)
    ensures Copy(HeldCopy(q), p) == Copy(q, p) && Copy(OfflineCopy(q), p) == Copy(q, p) && Copy(p, p)
  {
  }

  lemma CopyEither(qs: seq<Packet>, rs: seq<Packet>, p: Packet)
    ensures HasCopy(qs + rs, p) <==> HasCopy(qs, p) || HasCopy(rs, p)
  {
    hide Copy;
    var all := qs + rs;
    assert forall i | 0 <= i < |qs| :: all[i] == qs[i];
    assert forall i | 0 <= i < |rs| :: all[|qs| + i] == rs[i];
    if HasCopy(all, p) {
      var i :| 0 <= i < |all| && Copy(all[i], p);
      assert i < |qs| ==> Copy(qs[i], p);
      assert i >= |qs| ==> Copy(rs[i - |qs|], p);
    }
  }

  lemma CopyOfOne(q: Packet, p: Packet)
    ensures HasCopy([q], p) == Copy(q, p)
  {
    hide Copy;
    assert [q][0] == q;
  }

  lemma CopyOfNone(p: Packet)
    ensures !HasCopy([], p)
  {
  }

  /** Replaying kept packets sends a copy exactly when there is one. */
  lemma {:induction false} PassedCopies(l: Fixed, qs: seq<Packet>, p: Packet, n: string)
    requires For(l, p, n)
    ensures HasCopy(Passed(l.senders, l.receivers, qs, n), p) <==> HasCopy(qs, p)
  {
    hide For, Receives, Copy, HasCopy;
    if qs == [] {
      CopyOfNone(p);
    } else {
      var k := |qs| - 1;
      PassedCopies(l, qs[..k], p, n);
      assert qs == qs[..k] + [qs[k]];
      CopyEither(qs[..k], [qs[k]], p);
      CopyEither(Passed(l.senders, l.receivers, qs[..k], n), [qs[k]], p);
      CopyOfOne(qs[k], p);
      if Copy(qs[k], p) {
        CopiesPass(l, p, n, qs[k]);
      }
    }
  }

  // --- buffers ---

  function Repeated(q: Packet, k: nat): (qs: seq<Packet>)
    ensures |qs| == k
  {
    if k == 0 then [] else Repeated(q, k - 1) + [q]
  }

  lemma LatestPush(w: seq<Packet>, c: Packet)
    ensures Latest(w + [c], MAX_OFFLINE)
         == var v := Latest(w, MAX_OFFLINE); (if |v| >= MAX_OFFLINE then v[1..] else v) + [c]
  {
  }

  /** A push leaves in a buffer the latest 1000 of what was there and one copy per mention. */
  lemma {:induction false} BufferWindow(b: Buffers, names: seq<string>, q: Packet, n: string)
    requires |BufferOf(b, n)| <= MAX_OFFLINE
    ensures BufferOf(BufferAll(b, names, q), n)
         == Latest(BufferOf(b, n) + Repeated(OfflineCopy(q), Count(names, n)), MAX_OFFLINE)
  {
    hide OfflineCopy, Latest;
    var mine, c := BufferOf(b, n), OfflineCopy(q);
    if names == [] {
      assert mine + [] == mine;
      LatestOfShort(mine);
    } else {
      var front := names[..|names| - 1];
      BufferWindow(b, front, q, n);
      if names[|names| - 1] == n {
        LatestPush(mine + Repeated(c, Count(front, n)), c);
        assert mine + Repeated(c, Count(front, n)) + [c] == mine + Repeated(c, Count(front, n) + 1);
      }
    }
  }

  lemma LatestOfShort(w: seq<Packet>)
    requires |w| <= MAX_OFFLINE
    ensures Latest(w, MAX_OFFLINE) == w
  {
  }

  lemma {:induction false} RepeatedCopies(c: Packet, k: nat, i: nat, p: Packet)
    requires i <= k
    ensures HasCopy(Repeated(c, k)[i..], p) <==> i < k && Copy(c, p)
  {
    hide Copy, HasCopy;
    if i == k {
      assert Repeated(c, k)[i..] == [];
      CopyOfNone(p);
    } else {
      RepeatedCopies(c, k - 1, i, p);
      assert Repeated(c, k)[i..] == Repeated(c, k - 1)[i..] + [c];
      CopyEither(Repeated(c, k - 1)[i..], [c], p);
      CopyOfOne(c, p);
    }
  }

  lemma WindowCopies(mine: seq<Packet>, c: Packet, k: nat, p: Packet)
    requires |mine| <= MAX_OFFLINE
    ensures HasCopy(Latest(mine + Repeated(c, k), MAX_OFFLINE), p) <==>
      HasCopy(Survivors(mine, k), p) || (k > 0 && Copy(c, p))
  {
    hide Copy, HasCopy;
    var d := if |mine| + k <= MAX_OFFLINE then 0 else |mine| + k - MAX_OFFLINE;
    var e := if d <= |mine| then 0 else d - |mine|;
    var rep := Repeated(c, k);
    assert Latest(mine + rep, MAX_OFFLINE) == Survivors(mine, k) + rep[e..];
    CopyEither(Survivors(mine, k), rep[e..], p);
    RepeatedCopies(c, k, e, p);
  }

  lemma {:induction false} CountPositive(names: seq<string>, n: string)
    ensures Count(names, n) > 0 <==> n in names
  {
    if names != [] {
      CountPositive(names[..|names| - 1], n);
      assert names == names[..|names| - 1] + [names[|names| - 1]];
    }
  }

  lemma BufferAfterPush(b: Buffers, names: seq<string>, q: Packet, n: string, p: Packet)
    requires |BufferOf(b, n)| <= MAX_OFFLINE
    ensures |BufferOf(BufferAll(b, names, q), n)| <= MAX_OFFLINE
    ensures HasCopy(BufferOf(BufferAll(b, names, q), n), p) <==>
      HasCopy(Survivors(BufferOf(b, n), Count(names, n)), p) || (n in names && Copy(q, p))
  {
    hide HasCopy, BufferAll, Survivors;
    BufferWindow(b, names, q, n);
    WindowCopies(BufferOf(b, n), OfflineCopy(q), Count(names, n), p);
    CountPositive(names, n);
    KeptIsCopy(q, p);
  }

  lemma SurvivorsArePart(mine: seq<Packet>, k: nat, p: Packet)
    ensures HasCopy(Survivors(mine, k), p) ==> HasCopy(mine, p)
  {
    hide Copy, HasCopy;
    var d := |mine| + k - MAX_OFFLINE;
    if |mine| + k > MAX_OFFLINE && k < MAX_OFFLINE {
      assert mine == mine[..d] + mine[d..];
      CopyEither(mine[..d], mine[d..], p);
    } else {
      CopyOfNone(p);
    }
  }

  // ------------------------------------------------------------------------------------------
  // What a step does to a packet
  // ------------------------------------------------------------------------------------------

  lemma PushStep(l: Fixed, s: State, step: Step, n: string, p: Packet)
    requires step.Push? && Bounded(s, n)
    ensures var t, o := Next(l, s, step), Pushed(l, s, step.p, step.prev, step.next, step.room);
      && Bounded(t, n) && (Sent(t, n, p) <==> Sent(s, n, p))
      && (HasCopy(t.queue, p) <==> HasCopy(s.queue, p) || (o.queued && Copy(step.p, p)))
      && (HasCopy(t.buffer, p) <==> HasCopy(s.buffer, p) || (o.held && Copy(step.p, p)))
      && (HasCopy(BufferOf(t.buffers, n), p) <==>
          HasCopy(Survivors(BufferOf(s.buffers, n), Count(o.absent, n)), p) || (n in o.absent && Copy(step.p, p)))
  {
    hide HasCopy, Copy, BufferAll, Survivors, Delivery.Push, HeldCopy;
    var t, o, q := Next(l, s, step), Pushed(l, s, step.p, step.prev, step.next, step.room), step.p;
    BufferAfterPush(s.buffers, o.absent, q, n, p);
    KeptIsCopy(q, p);
    CopyOfOne(q, p);
    CopyOfOne(HeldCopy(q), p);
    CopyOfNone(p);
    CopyEither(s.queue, if o.queued then [q] else [], p);
    CopyEither(s.buffer, if o.held then [HeldCopy(q)] else [], p);
  }

  lemma EndedStep(s: State, m: string, n: string, p: Packet)
    ensures var t := Ended(s, m);
      && (Sent(t, n, p) <==> Sent(s, n, p)) && (Waits(t, n, p) <==> Waits(s, n, p))
      && (m != n ==> StreamOf(t, n) == StreamOf(s, n) && PastOf(t, n) == PastOf(s, n))
      && (m == n ==> n !in t.subscribers)
  {
    hide HasCopy;
    CopyEither(PastOf(s, n), StreamOf(s, n), p);
    CopyOfNone(p);
  }

  /** A subscription of `n` sends exactly what is replayed, on top of what had been sent. */
  lemma JoinStep(l: Fixed, s: State, m: string, n: string, p: Packet, kept: seq<Packet>)
    requires For(l, p, n)
    ensures var t := Join(l, s, m, kept);
      && (m == n ==> (Sent(t, n, p) <==> Sent(s, n, p) || HasCopy(s.buffer, p) || HasCopy(kept, p)))
      && (m == n ==> (HasCopy(StreamOf(t, n), p) <==> HasCopy(s.buffer, p) || HasCopy(kept, p)))
      && (m != n ==> (Sent(t, n, p) <==> Sent(s, n, p)))
  {
    hide HasCopy, For, Passed;
    EndedStep(s, m, n, p);
    CopyOfNone(p);
    if m == n {
      CopyEither(s.buffer, kept, p);
      PassedCopies(l, s.buffer + kept, p, n);
    }
  }

  lemma DistributeStep(l: Fixed, s: State, n: string, p: Packet)
    requires For(l, p, n) && s.queue != []
    ensures var t := Next(l, s, Distribute);
      && (n in t.subscribers <==> n in s.subscribers)
      && (Sent(t, n, p) <==> Sent(s, n, p) || (n in s.subscribers && Copy(s.queue[0], p)))
      && (HasCopy(s.queue, p) <==> Copy(s.queue[0], p) || HasCopy(t.queue, p))
  {
    hide HasCopy, For, Receives, Copy;
    var q := s.queue[0];
    assert s.queue == [q] + s.queue[1..];
    CopyEither([q], s.queue[1..], p);
    CopyOfOne(q, p);
    CopyEither(StreamOf(s, n), [q], p);
    assert StreamOf(s, n) + [] == StreamOf(s, n);
    if Copy(q, p) {
      CopiesPass(l, p, n, q);
    }
  }

  /** A packet that is present stays present exactly unless the step loses it. */
  lemma StepLosesExactly(l: Fixed, s: State, step: Step, n: string, p: Packet)
    requires For(l, p, n) && Bounded(s, n) && Present(s, n, p)
    ensures Bounded(Next(l, s, step), n)
    ensures Present(Next(l, s, step), n, p) <==> !Loses(l, s, step, n, p)
  {
    hide HasCopy, For, AfterPush, Passed, Distributed, Copy, Survivors, Receives;
    match step
    case Push(q, prev, next, room) =>
      hide Sent, Pushed, Bounded;
      PushStep(l, s, step, n, p);
      SurvivorsArePart(BufferOf(s.buffers, n), Count(Pushed(l, s, q, prev, next, room).absent, n), p);
    case Distribute =>
      hide Sent;
      if s.queue != [] {
        DistributeStep(l, s, n, p);
      } else {
        CopyOfNone(p);
      }
    case Subscribe(m) =>
      JoinKeeps(l, s, m, n, p);
    case Recover(m, isRestart) =>
      JoinKeeps(l, s, m, n, p);
    case Unsubscribe(m) =>
      EndedStep(s, m, n, p);
    case Online(_) =>
    case Offline(_) =>
    case KeepElsewhere(m, q) =>
      KeepStep(s.buffers, m, q, n, p);
      SurvivorsArePart(BufferOf(s.buffers, n), 1, p);
    case DrainElsewhere(m) =>
      CopyOfNone(p);
  }

  /** Another channel's push appends one copy to the buffer of `m`. */
  lemma KeepStep(b: Buffers, m: string, q: Packet, n: string, p: Packet)
    requires |BufferOf(b, n)| <= MAX_OFFLINE
    ensures |BufferOf(Buffered(b, m, q), n)| <= MAX_OFFLINE
    ensures m != n ==> BufferOf(Buffered(b, m, q), n) == BufferOf(b, n)
    ensures m == n ==>
      (HasCopy(BufferOf(Buffered(b, m, q), n), p) <==> HasCopy(Survivors(BufferOf(b, n), 1), p) || Copy(q, p))
  {
    hide HasCopy, Survivors, Copy;
    assert [m][..0] == [];
    assert BufferAll(b, [m], q) == Buffered(b, m, q) && Count([m], n) == if m == n then 1 else 0;
    hide Buffered;
    BufferAfterPush(b, [m], q, n, p);
    OthersKeepTheirBuffer(b, m, q, n);
  }

  lemma OthersKeepTheirBuffer(b: Buffers, m: string, q: Packet, n: string)
    ensures m != n ==> BufferOf(Buffered(b, m, q), n) == BufferOf(b, n)
  {
  }

  lemma JoinKeeps(l: Fixed, s: State, m: string, n: string, p: Packet)
    requires For(l, p, n) && Bounded(s, n)
    ensures Bounded(Drained(l, s, m), n) && (Present(Drained(l, s, m), n, p) <==> Present(s, n, p))
    ensures Bounded(Join(l, s, m, []), n) && (Present(Join(l, s, m, []), n, p) <==> Present(s, n, p))
  {
    hide HasCopy, For, Passed, Copy;
    CopyOfNone(p);
    JoinStep(l, s, m, n, p, BufferOf(s.buffers, m));
    JoinStep(l, s, m, n, p, []);
  }

  /** A packet that is gone stays gone unless it is pushed again. */
  lemma LostStaysLost(l: Fixed, s: State, step: Step, n: string, p: Packet)
    requires For(l, p, n) && Bounded(s, n) && !Present(s, n, p) && !Repeats(step, p)
    ensures Bounded(Next(l, s, step), n) && !Present(Next(l, s, step), n, p)
  {
    hide HasCopy, For, AfterPush, Passed, Distributed, Copy, Survivors, Receives;
    match step
    case Push(q, prev, next, room) =>
      hide Sent, Pushed, Bounded;
      PushStep(l, s, step, n, p);
      SurvivorsArePart(BufferOf(s.buffers, n), Count(Pushed(l, s, q, prev, next, room).absent, n), p);
    case Distribute =>
      hide Sent;
      if s.queue != [] {
        DistributeStep(l, s, n, p);
      }
    case Subscribe(m) =>
      JoinKeeps(l, s, m, n, p);
    case Recover(m, isRestart) =>
      JoinKeeps(l, s, m, n, p);
    case Unsubscribe(m) =>
      EndedStep(s, m, n, p);
    case Online(_) =>
    case Offline(_) =>
    case KeepElsewhere(m, q) =>
      KeepStep(s.buffers, m, q, n, p);
      SurvivorsArePart(BufferOf(s.buffers, n), 1, p);
    case DrainElsewhere(m) =>
      CopyOfNone(p);
  }

  // ------------------------------------------------------------------------------------------
  // Whole runs
  // ------------------------------------------------------------------------------------------

  lemma NeverLosesFront(l: Fixed, s: State, steps: seq<Step>, n: string, p: Packet)
    requires steps != []
    ensures var k := |steps| - 1;
      NeverLoses(l, s, steps, n, p) <==>
        NeverLoses(l, s, steps[..k], n, p) && !Loses(l, Run(l, s, steps[..k]), steps[k], n, p)
  {
    hide Loses, Run;
    var k := |steps| - 1;
    assert forall i | 0 <= i < k :: steps[..k][..i] == steps[..i] && steps[..k][i] == steps[i];
    assert NeverLoses(l, s, steps[..k], n, p) <==>
           forall i | 0 <= i < k :: !Loses(l, Run(l, s, steps[..i]), steps[i], n, p);
  }

  /** Through any run of pushes, distributions, subscriptions, unsubscriptions and connectors coming and
      going, a packet that waits for `n` or has been sent to it stays so if no step loses it; and if
      nobody pushes it again, only if no step loses it. */
  lemma {:induction false} PresentExactly(l: Fixed, s: State, steps: seq<Step>, n: string, p: Packet)
    requires For(l, p, n) && Bounded(s, n) && Present(s, n, p)
    ensures Bounded(Run(l, s, steps), n)
    ensures NeverLoses(l, s, steps, n, p) ==> Present(Run(l, s, steps), n, p)
    ensures NotRepeated(steps, p) ==> (Present(Run(l, s, steps), n, p) <==> NeverLoses(l, s, steps, n, p))
  {
    hide For, Present, Next, Loses, Bounded, Copy;
    if steps != [] {
      var k := |steps| - 1;
      var now := Run(l, s, steps[..k]);
      PresentExactly(l, s, steps[..k], n, p);
      hide NeverLoses;
      NeverLosesFront(l, s, steps, n, p);
      if Present(now, n, p) {
        StepLosesExactly(l, now, steps[k], n, p);
      } else {
        StaysBounded(l, now, steps[k], n, p);
        if NotRepeated(steps, p) {
          LostStaysLost(l, now, steps[k], n, p);
        }
      }
    }
  }

  lemma StaysBounded(l: Fixed, s: State, step: Step, n: string, p: Packet)
    requires For(l, p, n) && Bounded(s, n)
    ensures Bounded(Next(l, s, step), n)
  {
    hide HasCopy, For, AfterPush, Passed, Distributed, Copy, Survivors, Receives, Sent;
    if step.Push? {
      hide Bounded;
      PushStep(l, s, step, n, p);
    } else if step.KeepElsewhere? {
      KeepStep(s.buffers, step.n, step.q, n, p);
    } else {
      CopyOfNone(p);
    }
  }

  /** While `n` is subscribed, what is in the channel's buffer has been sent to it or is in the queue. */
  predicate Caught(s: State, n: string, p: Packet) {
    n in s.subscribers && HasCopy(s.buffer, p) ==> Sent(s, n, p) || HasCopy(s.queue, p)
  }

  lemma CaughtStep(l: Fixed, s: State, step: Step, n: string, p: Packet)
    requires For(l, p, n) && Bounded(s, n) && Caught(s, n, p) && !Repeats(step, p)
    ensures Caught(Next(l, s, step), n, p)
  {
    hide HasCopy, For, AfterPush, Passed, Distributed, Copy, Survivors, Receives, Delivery.Push;
    match step
    case Push(q, prev, next, room) =>
      PushCaught(l, s, step, n, p);
    case Distribute =>
      hide Sent;
      if s.queue != [] {
        DistributeStep(l, s, n, p);
      }
    case Subscribe(m) =>
      JoinStep(l, s, m, n, p, BufferOf(s.buffers, m));
    case Recover(m, isRestart) =>
      JoinStep(l, s, m, n, p, BufferOf(s.buffers, m));
      JoinStep(l, s, m, n, p, []);
    case Unsubscribe(m) =>
      EndedStep(s, m, n, p);
    case Online(_) =>
    case Offline(_) =>
    case KeepElsewhere(_, _) =>
    case DrainElsewhere(_) =>
  }

  lemma PushCaught(l: Fixed, s: State, step: Step, n: string, p: Packet)
    requires step.Push? && Bounded(s, n) && Caught(s, n, p) && !Copy(step.p, p)
    ensures Caught(Next(l, s, step), n, p)
  {
    hide HasCopy, Receives, Survivors, Delivery.Push, Sent, Bounded, Copy;
    PushStep(l, s, step, n, p);
  }

  lemma {:induction false} CaughtThroughout(l: Fixed, s: State, steps: seq<Step>, n: string, p: Packet)
    requires For(l, p, n) && Bounded(s, n) && Caught(s, n, p) && NotRepeated(steps, p)
    ensures Bounded(Run(l, s, steps), n) && Caught(Run(l, s, steps), n, p)
  {
    hide For, Next, Bounded, Caught, Repeats;
    if steps != [] {
      var k := |steps| - 1;
      CaughtThroughout(l, s, steps[..k], n, p);
      CaughtStep(l, Run(l, s, steps[..k]), steps[k], n, p);
      StaysBounded(l, Run(l, s, steps[..k]), steps[k], n, p);
    }
  }

  /** A packet is present for a connector when it is in one of the three places. */
  lemma PlacedIsPresent(l: Fixed, s: State, p: Packet, prev: string, next: map<string, string>, room: bool, n: string)
    requires Bounded(s, n)
    requires var o := Pushed(l, s, p, prev, next, room);
      && (n in s.subscribers ==> o.queued)
      && (n !in s.subscribers && n in s.online ==> o.held)
      && (n !in s.subscribers && n !in s.online ==>
          var mine := BufferOf(BufferAll(s.buffers, o.absent, p), n); mine != [] && mine[|mine| - 1] == OfflineCopy(p))
    ensures var t := Next(l, s, Push(p, prev, next, room)); Bounded(t, n) && Present(t, n, p) && Caught(t, n, p)
  {
    hide Delivery.Push, HasCopy, Survivors, Sent, Bounded, BufferAll;
    var o := Pushed(l, s, p, prev, next, room);
    PushStep(l, s, Push(p, prev, next, room), n, p);
    KeptIsCopy(p, p);
    if n !in s.subscribers && n !in s.online {
      LastIsCopy(BufferOf(BufferAll(s.buffers, o.absent, p), n), p);
    }
  }

  /** After a successful broadcast the packet is present for every local receiver. */
  lemma PushedIsPresent(l: Fixed, s: State, p: Packet, prev: string, next: map<string, string>, room: bool, i: nat)
    requires p.targets == [] && !p.isAck && p.kind == Data
    requires Pushed(l, s, p, prev, next, room).result == Result.Pushed
    requires i < |l.receivers| && Locate(ViewOf(l, s), l.receivers[i]).Local?
    requires Bounded(s, Locate(ViewOf(l, s), l.receivers[i]).connector)
    ensures var n, t := Locate(ViewOf(l, s), l.receivers[i]).connector, Next(l, s, Push(p, prev, next, room));
      Bounded(t, n) && Present(t, n, p) && Caught(t, n, p)
  {
    hide Delivery.Push, Locate, BufferAll, Bounded, Present, Caught, Next;
    NoSilentLocalLoss(ViewOf(l, s), p, prev, next, room, s.buffers, i);
    PlacedIsPresent(l, s, p, prev, next, room, Locate(ViewOf(l, s), l.receivers[i]).connector);
  }

  lemma LastIsCopy(qs: seq<Packet>, p: Packet)
    requires qs != [] && qs[|qs| - 1] == OfflineCopy(p)
    ensures HasCopy(qs, p)
  {
    assert Copy(qs[|qs| - 1], p);
  }

  /** From acceptance to delivery. After a successful broadcast and any run in which the packet is not
      pushed again, a local receiver that is not a sender has been sent the packet or it still waits
      exactly when no step lost it; and when the receiver is subscribed, the queue is worked off and its
      own buffer is empty, it has been sent the packet exactly when no step lost it. */
  lemma BroadcastReachesExactly(l: Fixed, s: State, p: Packet, prev: string, next: map<string, string>, room: bool,
                                i: nat, steps: seq<Step>)
    requires p.targets == [] && !p.isAck && p.kind == Data
    requires Pushed(l, s, p, prev, next, room).result == Result.Pushed
    requires i < |l.receivers| && Locate(ViewOf(l, s), l.receivers[i]).Local?
    requires var n := Locate(ViewOf(l, s), l.receivers[i]).connector;
      !HasColon(n) && n != p.sender && !Lists(l.senders, n) && Bounded(s, n)
    requires NotRepeated(steps, p)
    ensures var n, s1 := Locate(ViewOf(l, s), l.receivers[i]).connector, Next(l, s, Push(p, prev, next, room));
      var t := Run(l, s1, steps);
      && (Present(t, n, p) <==> NeverLoses(l, s1, steps, n, p))
      && (n in t.subscribers && t.queue == [] && BufferOf(t.buffers, n) == [] ==>
          (Sent(t, n, p) <==> NeverLoses(l, s1, steps, n, p)))
  {
    hide Delivery.Push, Receives, Present, Bounded, Caught, Next, NeverLoses, Run, NotRepeated, HasColon, Lists;
    var v := ViewOf(l, s);
    var n, s1 := Locate(v, l.receivers[i]).connector, Next(l, s, Push(p, prev, next, room));
    LocalReceiverIsSent(v, p, i);
    PushedIsPresent(l, s, p, prev, next, room, i);
    hide Locate;
    PresentExactly(l, s1, steps, n, p);
    CaughtThroughout(l, s1, steps, n, p);
    SettledMeansSent(Run(l, s1, steps), n, p);
  }

  /** The same for directed packets: after a successful push, any bare target that is listed as a receiver,
      and is neither a sender nor the packet's own. */
  lemma DirectedReachesExactly(l: Fixed, s: State, p: Packet, prev: string, next: map<string, string>, room: bool,
                               n: string, steps: seq<Step>)
    requires !p.isAck && p.kind == Data && n in p.targets && !HasColon(n)
    requires Pushed(l, s, p, prev, next, room).result == Result.Pushed
    requires Lists(l.receivers, n) && n != p.sender && !Lists(l.senders, n) && Bounded(s, n)
    requires NotRepeated(steps, p)
    ensures var s1 := Next(l, s, Push(p, prev, next, room));
      var t := Run(l, s1, steps);
      && (Present(t, n, p) <==> NeverLoses(l, s1, steps, n, p))
      && (n in t.subscribers && t.queue == [] && BufferOf(t.buffers, n) == [] ==>
          (Sent(t, n, p) <==> NeverLoses(l, s1, steps, n, p)))
  {
    hide Delivery.Push, Present, Bounded, Caught, Next, NeverLoses, Run, NotRepeated, HasColon, Lists, BufferAll;
    var s1 := Next(l, s, Push(p, prev, next, room));
    var i :| 0 <= i < |p.targets| && p.targets[i] == n;
    assert X.AimedAt(p.targets[i], n);
    X.DirectedSentExactly(l.senders, l.receivers, p, n);
    hide Receives;
    X.NoSilentDirectedLoss(ViewOf(l, s), p, prev, next, room, s.buffers, n);
    PlacedIsPresent(l, s, p, prev, next, room, n);
    PresentExactly(l, s1, steps, n, p);
    CaughtThroughout(l, s1, steps, n, p);
    SettledMeansSent(Run(l, s1, steps), n, p);
  }

  lemma SettledMeansSent(t: State, n: string, p: Packet)
    requires Caught(t, n, p)
    ensures n in t.subscribers && t.queue == [] && BufferOf(t.buffers, n) == [] ==>
      (Sent(t, n, p) <==> Present(t, n, p))
  {
    hide HasCopy, Sent;
    CopyOfNone(p);
  }

  // ------------------------------------------------------------------------------------------
  // How packets get lost
  // ------------------------------------------------------------------------------------------

  function Rounds(k: nat): seq<Step> {
    seq(k, _ => Distribute)
  }

  lemma {:induction false} DistributeOn(l: Fixed, s: State, k: nat, n: string)
    requires k <= |s.queue| && n !in s.subscribers
    ensures var t := Run(l, s, Rounds(k));
      n !in t.subscribers && t == s.(queue := s.queue[k..], subscribers := t.subscribers)
  {
    if k > 0 {
      assert Rounds(k)[..k - 1] == Rounds(k - 1);
      DistributeOn(l, s, k - 1, n);
      hide Receives;
      assert s.queue[k - 1..][1..] == s.queue[k..];
    }
  }

  /** A subscriber that leaves while a packet is only in the queue loses it when the queue is worked off
      before the subscriber is back. */
  lemma LeavingWhileQueuedLoses(l: Fixed, s: State, n: string, p: Packet)
    requires !Sent(s, n, p) && !HasCopy(s.buffer, p) && !HasCopy(BufferOf(s.buffers, n), p)
    ensures !Present(Run(l, Ended(s, n), Rounds(|s.queue|)), n, p)
  {
    hide HasCopy, Run;
    EndedStep(s, n, n, p);
    DistributeOn(l, Ended(s, n), |s.queue|, n);
    CopyOfNone(p);
    var t := Run(l, Ended(s, n), Rounds(|s.queue|));
    assert t.queue == [] && StreamOf(t, n) == [] && PastOf(t, n) == PastOf(Ended(s, n), n);
  }

  /** What waits for a connector without a subscription is sent to it on recovery exactly when it is a
      restart or the channel's own buffer holds a copy. */
  lemma RecoverySendsExactly(l: Fixed, s: State, n: string, p: Packet, isRestart: bool)
    requires For(l, p, n) && n !in s.subscribers
    requires HasCopy(s.buffer, p) || HasCopy(BufferOf(s.buffers, n), p)
    ensures HasCopy(StreamOf(Next(l, s, Recover(n, isRestart)), n), p) <==> isRestart || HasCopy(s.buffer, p)
  {
    hide HasCopy, For, Passed, Copy;
    CopyOfNone(p);
    JoinStep(l, s, n, n, p, BufferOf(s.buffers, n));
    JoinStep(l, s, n, n, p, []);
  }

  // ------------------------------------------------------------------------------------------
  // Several channels on one kernel
  // ------------------------------------------------------------------------------------------

  function Keeps(names: seq<string>, q: Packet): seq<Step> {
    seq(|names|, i requires 0 <= i < |names| => KeepElsewhere(names[i], q))
  }

  lemma {:induction false} KeepsAreBufferAll(l: Fixed, s: State, names: seq<string>, q: Packet)
    ensures Run(l, s, Keeps(names, q)) == s.(buffers := BufferAll(s.buffers, names, q))
  {
    hide Buffered;
    if names != [] {
      var k := |names| - 1;
      assert Keeps(names, q)[..k] == Keeps(names[..k], q);
      KeepsAreBufferAll(l, s, names[..k], q);
    }
  }

  predicate IsElsewhere(step: Step) {
    step.KeepElsewhere? || step.DrainElsewhere? || step.Online? || step.Offline?
  }

  /** What any step on another channel of the kernel, with its own lists and its own queue, buffer and
      subscriptions, does to this one: it fills or empties buffers of connectors. */
  lemma OtherChannelSteps(l: Fixed, s: State, other: Fixed, t: State, step: Step) returns (steps: seq<Step>)
    requires t.buffers == s.buffers && t.online == s.online
    ensures var u := Next(other, t, step); Run(l, s, steps) == s.(buffers := u.buffers, online := u.online)
    ensures forall i | 0 <= i < |steps| :: IsElsewhere(steps[i])
  {
    hide Passed, Distributed, Delivery.Push, BufferAll, MaySubscribe;
    var u := Next(other, t, step);
    if step.Push? {
      var o := Pushed(other, t, step.p, step.prev, step.next, step.room);
      steps := Keeps(o.absent, step.p);
      KeepsAreBufferAll(l, s, o.absent, step.p);
    } else if (step.Subscribe? && MaySubscribe(other, t, step.n)) || (step.Recover? && step.isRestart) {
      steps := [DrainElsewhere(step.n)];
      OneStep(l, s, steps[0]);
    } else if IsElsewhere(step) {
      steps := [step];
      OneStep(l, s, step);
    } else {
      steps := [];
    }
  }

  lemma OneStep(l: Fixed, s: State, step: Step)
    ensures Run(l, s, [step]) == Next(l, s, step)
  {
    hide Next;
    assert [step][..0] == [] && Run(l, s, []) == s;
  }

  lemma TwoSteps(l: Fixed, s: State, a: Step, b: Step)
    ensures Run(l, s, [a, b]) == Next(l, Next(l, s, a), b)
  {
    hide Next;
    assert [a, b][..1] == [a];
    OneStep(l, s, a);
  }

  /** A packet that waits only in the connector's own buffer is lost when the connector, back after a
      restart, subscribes to another channel first: its subscription here, with queue and own buffer
      empty, has not been sent the packet and never will be unless it is pushed again. */
  lemma SubscribingElsewhereFirstLoses(l: Fixed, s: State, n: string, p: Packet, steps: seq<Step>)
    requires For(l, p, n) && Bounded(s, n) && !Sent(s, n, p) && !HasCopy(s.queue, p) && !HasCopy(s.buffer, p)
    requires NotRepeated(steps, p)
    ensures var t := Run(l, s, [DrainElsewhere(n), Recover(n, true)]);
      && n in t.subscribers && BufferOf(t.buffers, n) == [] && t.queue == s.queue
      && !Present(Run(l, t, steps), n, p)
  {
    hide HasCopy, For, Passed, Sent, NotRepeated, Run;
    TwoSteps(l, s, DrainElsewhere(n), Recover(n, true));
    var d := Next(l, s, DrainElsewhere(n));
    CopyOfNone(p);
    SameSent(s, d, n, p);
    JoinKeeps(l, d, n, n, p);
    GoneForGood(l, Run(l, s, [DrainElsewhere(n), Recover(n, true)]), steps, n, p);
  }

  lemma SameSent(s: State, t: State, n: string, p: Packet)
    requires t.subscribers == s.subscribers && t.past == s.past
    ensures Sent(t, n, p) == Sent(s, n, p)
  {
  }

  lemma {:induction false} GoneForGood(l: Fixed, s: State, steps: seq<Step>, n: string, p: Packet)
    requires For(l, p, n) && Bounded(s, n) && !Present(s, n, p) && NotRepeated(steps, p)
    ensures Bounded(Run(l, s, steps), n) && !Present(Run(l, s, steps), n, p)
  {
    hide For, Present, Next, Bounded, Repeats;
    if steps != [] {
      var k := |steps| - 1;
      GoneForGood(l, s, steps[..k], n, p);
      LostStaysLost(l, Run(l, s, steps[..k]), steps[k], n, p);
    }
  }

  /** The run from the start: a broadcast that nobody is subscribed for and nobody is online for is
      accepted, the absent receiver subscribes elsewhere and then here, and is not sent it. */
  lemma BroadcastTakenElsewhere(l: Fixed, s: State, p: Packet, prev: string, next: map<string, string>, room: bool,
                                i: nat)
    requires p.targets == [] && !p.isAck && p.kind == Data
    requires Pushed(l, s, p, prev, next, room).result == Result.Pushed
    requires s.subscribers == map[] && s.online == {} && s.queue == []
    requires i < |l.receivers| && Locate(ViewOf(l, s), l.receivers[i]).Local?
    requires var n := Locate(ViewOf(l, s), l.receivers[i]).connector;
      !HasColon(n) && n != p.sender && !Lists(l.senders, n) && Bounded(s, n) && !Present(s, n, p)
    ensures var n := Locate(ViewOf(l, s), l.receivers[i]).connector;
      var s1 := Next(l, s, Push(p, prev, next, room));
      var t := Run(l, s1, [DrainElsewhere(n), Recover(n, true)]);
      && HasCopy(BufferOf(s1.buffers, n), p)
      && n in t.subscribers && t.queue == [] && BufferOf(t.buffers, n) == [] && !Present(t, n, p)
  {
    hide Delivery.Push, Receives, Bounded, HasCopy, Sent, Survivors, HasColon, Lists, Run;
    var v := ViewOf(l, s);
    var n, s1 := Locate(v, l.receivers[i]).connector, Next(l, s, Push(p, prev, next, room));
    LocalReceiverIsSent(v, p, i);
    PushedIsPresent(l, s, p, prev, next, room, i);
    hide Locate;
    PushStep(l, s, Push(p, prev, next, room), n, p);
    NobodyThere(v, p, prev, next, room);
    hide Next;
    SubscribingElsewhereFirstLoses(l, s1, n, p, []);
    EmptyRun(l, Run(l, s1, [DrainElsewhere(n), Recover(n, true)]));
    QueueStays(l, s, p, prev, next, room);
  }

  lemma QueueStays(l: Fixed, s: State, p: Packet, prev: string, next: map<string, string>, room: bool)
    requires !Pushed(l, s, p, prev, next, room).queued
    ensures Next(l, s, Push(p, prev, next, room)).queue == s.queue
  {
  }

  lemma EmptyRun(l: Fixed, s: State)
    ensures Run(l, s, []) == s
  {
  }

  /** Without subscribers nothing is queued, without online connectors nothing is held. */
  lemma NobodyThere(v: View, p: Packet, prev: string, next: map<string, string>, room: bool)
    requires v.subscribers == {} && v.online == {}
    ensures var o := Delivery.Push(v, p, false, prev, next, room); !o.queued && !o.held
  {
    hide Lists, Forwards, RemoteTargets, AbsentTargets, Aimless, Retraces;
  }

  /** What becomes of it on the other channel: a foreign packet in a connector's buffer is sent on the
      other channel's stream exactly when the connector is there a receiver and not a sender, and is not
      the packet's own sender; else it is dropped. */
  lemma ForeignPacketReplayed(other: Fixed, t: State, n: string, p: Packet)
    requires p.targets == [] && OfflineCopy(p) in BufferOf(t.buffers, n) && OfflineCopy(p) !in t.buffer
    ensures OfflineCopy(p) in StreamOf(Next(other, t, Recover(n, true)), n) <==>
      && n != p.sender && !(p.senderKernel != "" && p.sender != "" && n == Qualify(p.senderKernel, p.sender))
      && !Named(other.senders, n) && Named(other.receivers, n)
    ensures BufferOf(Next(other, t, Recover(n, true)).buffers, n) == []
  {
    var c := OfflineCopy(p);
    PassedMember(other, t.buffer + BufferOf(t.buffers, n), c, n);
    assert Receives(other.senders, other.receivers, c, n) <==>
      && n != p.sender && !(p.senderKernel != "" && p.sender != "" && n == Qualify(p.senderKernel, p.sender))
      && !Named(other.senders, n) && Named(other.receivers, n);
    hide Receives, Named, Passed;
  }

  lemma {:induction false} PassedMember(l: Fixed, qs: seq<Packet>, c: Packet, n: string)
    ensures c in Passed(l.senders, l.receivers, qs, n) <==> c in qs && Receives(l.senders, l.receivers, c, n)
  {
    hide Receives;
    if qs != [] {
      var k := |qs| - 1;
      PassedMember(l, qs[..k], c, n);
      assert qs == qs[..k] + [qs[k]];
    }
  }
}
