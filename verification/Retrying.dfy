// The drain loop under retry, as runs of the sending half's step machine: what becomes of an item whose
// attempts fail, and that the undisturbed machine does what the loops of the source do
// (packages/core/src/transport/websocket/index.ts, packages/core/src/utils/retry.ts).

module Retrying {
  import opened Relay
  import opened Sender
  import opened Settlement
  import T = Transport

  // How an attempt ends: acknowledged; reported as failed although it reached the relay; or not there at all.
  datatype Reply = Acked | AckLost | NotReached

  // The queue's head is in hand.
  predicate HeadInHand(s: Sender, p: Phase) {
    && s.processing && s.drains == [p] && s.queue != [] && s.queue[0] == p.item
    && p.item < |s.items| && p.item < |s.outcomes| && s.outcomes[p.item].Pending?
  }

  // The head's promise is settled, it has left the queue, and the next item is taken up.
  function HeadDone(s: Sender, to: Outcome): Sender
    requires s.queue != []
  {
    var rest := s.queue[1..];
    s.(outcomes := if s.queue[0] < |s.outcomes| then s.outcomes[s.queue[0] := to] else s.outcomes,
       queue := rest, processing := rest != [], drains := if rest == [] then [] else [ReadingNonce(rest[0])])
  }

  lemma FinishIsHeadDone(s: Sender, p: Phase, to: Outcome)
    requires HeadInHand(s, p)
    ensures Finish(s, 0, to) == HeadDone(s, to)
  {
    assert Without(s.drains, 0) == [];
  }

  // ---- One item ----

  // The events of attempt k and of those that follow it, each failed one but the fifth with its wait.
  function Course(reply: nat -> Reply, k: nat): seq<Event>
    decreases 5 - k
  {
    if k >= 5 then []
    else
      match reply(k)
      case Acked => [Landed(0), Resumed(0)]
      case AckLost => [Landed(0)] + ([Failed(0, false)] + Waited(reply, k))
      case NotReached => [Failed(0, false)] + Waited(reply, k)
  }

  function Waited(reply: nat -> Reply, k: nat): seq<Event>
    requires k < 5
    decreases 5 - k, 0
  {
    if k == 4 then [] else [Resumed(0)] + Course(reply, k + 1)
  }

  // One of the attempts from the k-th to the fifth is acknowledged.
  predicate GetsThrough(reply: nat -> Reply, k: nat)
    decreases 5 - k
  {
    k < 5 && (reply(k).Acked? || GetsThrough(reply, k + 1))
  }

  lemma {:induction false} GetsThroughIff(reply: nat -> Reply, k: nat)
    ensures GetsThrough(reply, k) <==> exists j :: k <= j < 5 && reply(j).Acked?
    decreases 5 - k
  {
    if k < 5 { GetsThroughIff(reply, k + 1); }
  }

  // How many of the attempts made from the k-th on reach the relay.
  function Arrivals(reply: nat -> Reply, k: nat): nat
    decreases 5 - k
  {
    if k >= 5 then 0
    else
      match reply(k)
      case Acked => 1
      case AckLost => 1 + Arrivals(reply, k + 1)
      case NotReached => Arrivals(reply, k + 1)
  }

  function Copies(e: Entry, n: nat): Log { if n == 0 then [] else [e] + Copies(e, n - 1) }

  // Sender and relay together.
  datatype Both = Both(s: Sender, logs: Logs)

  function StepBoth(c: string, b: Both, ev: Event): Both { Both(Step(b.s, ev), LogsAfter(c, b.s, b.logs, ev)) }

  function RunBoth(c: string, b: Both, evs: seq<Event>): Both { Both(Run(b.s, evs), RunLogs(c, b.s, b.logs, evs)) }

  lemma RunFirst(c: string, b: Both, ev: Event, rest: seq<Event>)
    ensures RunBoth(c, b, [ev] + rest) == RunBoth(c, StepBoth(c, b, ev), rest)
  {
    assert ([ev] + rest)[1..] == rest;
  }

  lemma RunSecond(c: string, b: Both, ev: Event, ev': Event, rest: seq<Event>)
    ensures RunBoth(c, b, [ev, ev'] + rest) == RunBoth(c, StepBoth(c, StepBoth(c, b, ev), ev'), rest)
  {
    assert [ev, ev'] + rest == [ev] + ([ev'] + rest);
    RunFirst(c, b, ev, [ev'] + rest);
    RunFirst(c, StepBoth(c, b, ev), ev', rest);
  }

  // Channel ch has gained the entry so many times if it is the item's, and is as it was otherwise.
  predicate Gained(logs: Logs, logs': Logs, ch: string, channel: string, e: Entry, n: nat) {
    At(logs', ch) == At(logs, ch) + if ch == channel then Copies(e, n) else []
  }

  lemma GainedOneMore(logs: Logs, logs': Logs, ch: string, channel: string, e: Entry, n: nat)
    requires Gained(Append(logs, channel, e), logs', ch, channel, e, n)
    ensures Gained(logs, logs', ch, channel, e, n + 1)
  {
  }

  // The message of the item in hand.
  function FrameInHand(c: string, s: Sender, p: Phase): Entry
    requires p.item < |s.items| && (p.Publishing? || p.BackingOff?)
  {
    Message(c, p.nonce, s.items[p.item].payload)
  }

  lemma AttemptLands(c: string, b: Both, p: Phase)
    requires HeadInHand(b.s, p) && p.Publishing? && !p.landed
    ensures StepBoth(c, b, Landed(0))
      == Both(b.s.(drains := [p.(landed := true)]), Append(b.logs, b.s.items[p.item].channel, FrameInHand(c, b.s, p)))
  {
  }

  lemma AttemptAcked(c: string, b: Both, p: Phase)
    requires HeadInHand(b.s, p) && p.Publishing? && p.landed
    ensures StepBoth(c, b, Resumed(0)) == Both(HeadDone(b.s, Sent), b.logs)
  {
    FinishIsHeadDone(b.s, p, Sent);
  }

  lemma AttemptFails(c: string, b: Both, p: Phase)
    requires HeadInHand(b.s, p) && p.Publishing? && p.attempt < 4
    ensures StepBoth(c, StepBoth(c, b, Failed(0, false)), Resumed(0))
      == Both(b.s.(drains := [Publishing(p.item, p.nonce, p.attempt + 1, false)]), b.logs)
  {
  }

  lemma LastAttemptFails(c: string, b: Both, p: Phase)
    requires HeadInHand(b.s, p) && p.Publishing? && p.attempt == 4
    ensures StepBoth(c, b, Failed(0, false)) == Both(HeadDone(b.s, Rejected), b.logs)
  {
    FinishIsHeadDone(b.s, p, Rejected);
  }

  // What the attempts from the k-th on come to.
  predicate CourseDone(c: string, b: Both, b': Both, p: Phase, reply: nat -> Reply, k: nat, ch: string)
    requires HeadInHand(b.s, p) && p.Publishing?
  {
    && b'.s == HeadDone(b.s, if GetsThrough(reply, k) then Sent else Rejected)
    && Gained(b.logs, b'.logs, ch, b.s.items[p.item].channel, FrameInHand(c, b.s, p), Arrivals(reply, k))
  }

  // The attempt in hand fails: the last one ends the item, any other leads to the next.
  function FailureCourse(reply: nat -> Reply, k: nat): seq<Event>
    requires k < 5
  {
    [Failed(0, false)] + Waited(reply, k)
  }

  lemma FailureCourseNext(reply: nat -> Reply, k: nat)
    requires k < 4
    ensures FailureCourse(reply, k) == [Failed(0, false), Resumed(0)] + Course(reply, k + 1)
  {
    var rest := Course(reply, k + 1);
    assert Waited(reply, k) == [Resumed(0)] + rest;
    assert [Failed(0, false)] + ([Resumed(0)] + rest) == [Failed(0, false), Resumed(0)] + rest;
  }

  lemma FailureGoesOn(c: string, b: Both, p: Phase, reply: nat -> Reply)
    requires HeadInHand(b.s, p) && p.Publishing? && p.attempt < 4
    ensures RunBoth(c, b, FailureCourse(reply, p.attempt))
      == RunBoth(c, Both(b.s.(drains := [Publishing(p.item, p.nonce, p.attempt + 1, false)]), b.logs), Course(reply, p.attempt + 1))
  {
    FailureCourseNext(reply, p.attempt);
    AttemptFails(c, b, p);
    RunSecond(c, b, Failed(0, false), Resumed(0), Course(reply, p.attempt + 1));
  }

  lemma FailureEnds(c: string, b: Both, p: Phase, reply: nat -> Reply, ch: string)
    requires HeadInHand(b.s, p) && p.Publishing? && p.attempt == 4
    ensures CourseDone(c, b, RunBoth(c, b, FailureCourse(reply, 4)), p, reply, 5, ch)
  {
    LastAttemptFails(c, b, p);
    RunFirst(c, b, Failed(0, false), []);
    assert FailureCourse(reply, 4) == [Failed(0, false)] + [];
    assert At(b.logs, ch) + [] == At(b.logs, ch);
  }

  lemma SuccessEnds(c: string, b: Both, p: Phase, reply: nat -> Reply, ch: string)
    requires HeadInHand(b.s, p) && p.Publishing? && !p.landed && p.attempt < 5 && reply(p.attempt).Acked?
    ensures CourseDone(c, b, RunBoth(c, b, Course(reply, p.attempt)), p, reply, p.attempt, ch)
  {
    AttemptLands(c, b, p);
    AttemptAcked(c, StepBoth(c, b, Landed(0)), p.(landed := true));
    RunSecond(c, b, Landed(0), Resumed(0), []);
    assert [Landed(0), Resumed(0)] + [] == [Landed(0), Resumed(0)];
    assert Copies(FrameInHand(c, b.s, p), 1) == [FrameInHand(c, b.s, p)];
  }

  lemma LostAckLands(c: string, b: Both, p: Phase, reply: nat -> Reply)
    requires HeadInHand(b.s, p) && p.Publishing? && !p.landed && p.attempt < 5 && reply(p.attempt).AckLost?
    ensures RunBoth(c, b, Course(reply, p.attempt)) == RunBoth(c, StepBoth(c, b, Landed(0)), FailureCourse(reply, p.attempt))
  {
    RunFirst(c, b, Landed(0), FailureCourse(reply, p.attempt));
    assert Course(reply, p.attempt) == [Landed(0)] + FailureCourse(reply, p.attempt);
  }

  /** Retry, as the step machine does it: whatever becomes of the attempts, the promise resolves to true
      if one of the five is acknowledged and is rejected otherwise, the next item is taken up, and the relay
      holds the one message once for every attempt that reached it. */
  lemma {:induction false} RetryCourse(c: string, b: Both, p: Phase, reply: nat -> Reply, ch: string)
    requires HeadInHand(b.s, p) && p.Publishing? && !p.landed && p.attempt < 5
    ensures CourseDone(c, b, RunBoth(c, b, Course(reply, p.attempt)), p, reply, p.attempt, ch)
    decreases 5 - p.attempt
  {
    var k := p.attempt;
    match reply(k)
    case Acked => SuccessEnds(c, b, p, reply, ch);
    case AckLost =>
      AttemptLands(c, b, p);
      LostAckLands(c, b, p, reply);
      var landed := StepBoth(c, b, Landed(0));
      RetryAfterFailure(c, landed, p.(landed := true), reply, ch);
      GainedOneMore(b.logs, RunBoth(c, landed, FailureCourse(reply, k)).logs, ch, b.s.items[p.item].channel,
                    FrameInHand(c, b.s, p), Arrivals(reply, k + 1));
    case NotReached => RetryAfterFailure(c, b, p, reply, ch);
  }

  lemma {:induction false} RetryAfterFailure(c: string, b: Both, p: Phase, reply: nat -> Reply, ch: string)
    requires HeadInHand(b.s, p) && p.Publishing? && p.attempt < 5
    ensures CourseDone(c, b, RunBoth(c, b, FailureCourse(reply, p.attempt)), p, reply, p.attempt + 1, ch)
    decreases 5 - p.attempt, 0
  {
    if p.attempt == 4 {
      FailureEnds(c, b, p, reply, ch);
    } else {
      var next := Publishing(p.item, p.nonce, p.attempt + 1, false);
      FailureGoesOn(c, b, p, reply);
      RetryCourse(c, Both(b.s.(drains := [next]), b.logs), next, reply, ch);
    }
  }

  // The item is still being tried under the same nonce, and nothing else has changed.
  predicate StillTrying(s: Sender, t: Sender, p: Phase)
    requires p.Publishing?
  {
    && |t.drains| == 1 && t == s.(drains := t.drains)
    && (t.drains[0].Publishing? || t.drains[0].BackingOff?)
    && t.drains[0].item == p.item && t.drains[0].nonce == p.nonce
  }

  lemma RunSplit(s: Sender, ev: Event, rest: seq<Event>)
    ensures Run(s, [ev] + rest) == Run(Step(s, ev), rest)
  {
    assert ([ev] + rest)[1..] == rest;
  }

  // The first m > 0 events of a longer course.
  lemma RunPart(s: Sender, ev: Event, rest: seq<Event>, m: nat)
    requires 0 < m <= 1 + |rest|
    ensures Run(s, ([ev] + rest)[..m]) == Run(Step(s, ev), rest[..m - 1])
  {
    assert ([ev] + rest)[..m] == [ev] + rest[..m - 1];
    RunSplit(s, ev, rest[..m - 1]);
  }

  lemma RunNothing(s: Sender, evs: seq<Event>)
    ensures Run(s, evs[..0]) == s
  {
  }

  // Trying goes on from a later point of the same item.
  lemma TryingFrom(s: Sender, drains: seq<Phase>, t: Sender, p: Phase, p': Phase)
    requires p.Publishing? && p'.Publishing? && p'.item == p.item && p'.nonce == p.nonce
    requires StillTrying(s.(drains := drains), t, p')
    ensures StillTrying(s, t, p)
  {
  }

  lemma HeadSteps(s: Sender, p: Phase)
    requires HeadInHand(s, p) && p.Publishing?
    ensures Step(s, Landed(0)) == s.(drains := [p.(landed := true)])
    ensures p.attempt < 4 ==> Step(s, Failed(0, false)) == s.(drains := [BackingOff(p.item, p.nonce, p.attempt)])
  {
  }

  lemma WaitSteps(s: Sender, p: Phase)
    requires s.drains == [p] && p.BackingOff?
    ensures Step(s, Resumed(0)) == s.(drains := [Publishing(p.item, p.nonce, p.attempt + 1, false)])
  {
  }

  /** Until then the promise stays pending, the item at the head, and every attempt uses the same nonce. */
  lemma {:induction false} RetryKeepsTrying(s: Sender, p: Phase, reply: nat -> Reply, m: nat)
    requires HeadInHand(s, p) && p.Publishing? && !p.landed && p.attempt < 5 && m < |Course(reply, p.attempt)|
    ensures StillTrying(s, Run(s, Course(reply, p.attempt)[..m]), p)
    decreases 5 - p.attempt
  {
    var k, landed := p.attempt, s.(drains := [p.(landed := true)]);
    HeadSteps(s, p);
    if m == 0 {
      RunNothing(s, Course(reply, k));
    } else {
      match reply(k)
      case Acked =>
        RunPart(s, Landed(0), [Resumed(0)], m);
        RunNothing(landed, [Resumed(0)]);
      case AckLost =>
        RunPart(s, Landed(0), FailureCourse(reply, k), m);
        FailureKeepsTrying(landed, p.(landed := true), reply, m - 1);
        TryingFrom(s, landed.drains, Run(s, Course(reply, k)[..m]), p, p.(landed := true));
      case NotReached => FailureKeepsTrying(s, p, reply, m);
    }
  }

  lemma {:induction false} FailureKeepsTrying(s: Sender, p: Phase, reply: nat -> Reply, m: nat)
    requires HeadInHand(s, p) && p.Publishing? && p.attempt < 5 && m < |FailureCourse(reply, p.attempt)|
    ensures StillTrying(s, Run(s, FailureCourse(reply, p.attempt)[..m]), p)
    decreases 5 - p.attempt, 0
  {
    var k := p.attempt;
    if m == 0 {
      RunNothing(s, FailureCourse(reply, k));
    } else {
      var failed := s.(drains := [BackingOff(p.item, p.nonce, k)]);
      assert k < 4;
      HeadSteps(s, p);
      RunPart(s, Failed(0, false), Waited(reply, k), m);
      if m == 1 {
        RunNothing(failed, Waited(reply, k));
      } else {
        var next := Publishing(p.item, p.nonce, k + 1, false);
        WaitSteps(failed, failed.drains[0]);
        RunPart(failed, Resumed(0), Course(reply, k + 1), m - 1);
        RetryKeepsTrying(s.(drains := [next]), next, reply, m - 2);
        TryingFrom(s, [next], Run(s, FailureCourse(reply, k)[..m]), p, next);
      }
    }
  }

  function Failures(reply: nat -> Reply, k: nat): nat
    decreases 5 - k
  {
    if k >= 5 || reply(k).Acked? then 0 else 1 + Failures(reply, k + 1)
  }

  lemma {:induction false} CourseFailures(reply: nat -> Reply, k: nat)
    ensures multiset(Course(reply, k))[Failed(0, false)] == Failures(reply, k)
    decreases 5 - k
  {
    if k < 5 && !reply(k).Acked? {
      CourseFailures(reply, k + 1);
      if k == 4 { assert Course(reply, 5) == []; }
      assert multiset(Waited(reply, k))[Failed(0, false)] == Failures(reply, k + 1);
    }
  }

  lemma {:induction false} FailuresAre(reply: nat -> Reply, k: nat)
    requires k <= 5
    ensures var j := k + Failures(reply, k);
      && j <= 5 && (j < 5 <==> GetsThrough(reply, k)) && (j < 5 ==> reply(j).Acked?)
      && (forall i :: k <= i < j ==> !reply(i).Acked?)
    decreases 5 - k
  {
    if k < 5 {
        FailuresAre(reply, k + 1);
    }
  }

  /** Failed attempts are followed by another until one is acknowledged or five have been made: an item that
      is given up has failed five times, one that gets through as often as there were attempts before
      the first acknowledged one. */
  lemma FailuresInCourse(reply: nat -> Reply, k: nat)
    requires k <= 5
    ensures var j := k + multiset(Course(reply, k))[Failed(0, false)];
      && j <= 5 && (j < 5 <==> GetsThrough(reply, k)) && (j < 5 ==> reply(j).Acked?)
      && (forall i :: k <= i < j ==> !reply(i).Acked?)
  {
    CourseFailures(reply, k);
    FailuresAre(reply, k);
  }

  /** A store access that fails is not retried: the promise is rejected at once and the next item is taken
      up. If the write had taken effect, its nonce is spent. */
  lemma StoreFailureRejects(s: Sender, p: Phase, persisted: bool)
    requires HeadInHand(s, p) && (p.ReadingNonce? || p.WritingNonce?)
    ensures Step(s, Failed(0, persisted)) ==
      HeadDone(if p.WritingNonce? && persisted then s.(counters := s.counters[s.items[p.item].channel := p.nonce]) else s, Rejected)
  {
    FinishIsHeadDone(if p.WritingNonce? && persisted then s.(counters := s.counters[ChannelOf(s, p.item) := p.nonce]) else s, p, Rejected);
  }

  // ---- The whole loop ----

  function RepliesTo(reply: (nat, nat) -> Reply, i: nat): nat -> Reply { (k: nat) => reply(i, k) }

  // From the read of the item's nonce record to the end of its attempts.
  function CourseOf(reply: (nat, nat) -> Reply, i: nat): seq<Event> {
    [Resumed(0), Resumed(0)] + Course(RepliesTo(reply, i), 0)
  }

  function CoursesOf(reply: (nat, nat) -> Reply, queue: seq<nat>): seq<Event> {
    if queue == [] then [] else CoursesOf(reply, queue[..|queue| - 1]) + CourseOf(reply, queue[|queue| - 1])
  }

  function Success(reply: (nat, nat) -> Reply): (nat, nat) -> bool { (i: nat, k: nat) => reply(i, k).Acked? }

  // Between two rounds, the next item not yet taken up.
  predicate AtLoopHead(s: Sender) {
    && s.processing && s.drains == [] && s.queue != [] && s.queue[0] < |s.items|
    && s.queue[0] < |s.outcomes| && s.outcomes[s.queue[0]].Pending?
  }

  lemma NumberHead(s: Sender, rest: seq<Event>)
    requires AtLoopHead(s)
    ensures var i, n := s.queue[0], Counter(s, ChannelOf(s, s.queue[0])) + 1;
      Run(LoopHead(s), [Resumed(0), Resumed(0)] + rest)
      == Run(s.(counters := s.counters[ChannelOf(s, i) := n], nonceOf := s.nonceOf[i := n], drains := [Publishing(i, n, 0, false)]), rest)
  {
    var i, n, reading := s.queue[0], Counter(s, ChannelOf(s, s.queue[0])) + 1, LoopHead(s);
    assert [Resumed(0), Resumed(0)] + rest == [Resumed(0)] + ([Resumed(0)] + rest);
    RunSplit(reading, Resumed(0), [Resumed(0)] + rest);
    assert reading.drains == [ReadingNonce(i)];
    var writing := Step(reading, Resumed(0));
    assert writing == s.(drains := [WritingNonce(i, n)]);
    assert writing.drains[0 := Publishing(i, n, 0, false)] == [Publishing(i, n, 0, false)];
    RunSplit(writing, Resumed(0), rest);
  }

  lemma SameSuccess(reply: (nat, nat) -> Reply, i: nat)
    ensures GetsThrough(RepliesTo(reply, i), 0) <==> T.Succeeds(Success(reply), i)
  {
    GetsThroughIff(RepliesTo(reply, i), 0);
    if GetsThrough(RepliesTo(reply, i), 0) {
      var j: nat :| j < 5 && RepliesTo(reply, i)(j).Acked?;
      assert Success(reply)(i, j);
    }
    if T.Succeeds(Success(reply), i) {
      var j: nat :| j < MAX_RETRY_ATTEMPTS && Success(reply)(i, j);
      assert RepliesTo(reply, i)(j).Acked?;
    }
  }

  lemma RoundIsHeadDone(s: Sender, numbered: Sender, success: (nat, nat) -> bool)
    requires AtLoopHead(s)
    requires var i, n := s.queue[0], Counter(s, ChannelOf(s, s.queue[0])) + 1;
      numbered == s.(counters := s.counters[ChannelOf(s, i) := n], nonceOf := s.nonceOf[i := n], drains := numbered.drains)
    ensures LoopHead(T.Round(success, s)) == HeadDone(numbered, if T.Succeeds(success, s.queue[0]) then Sent else Rejected)
  {
  }

  /** The undisturbed machine, from the read of the nonce to the next item, is one round of the loop. */
  lemma MachineRound(s: Sender, reply: (nat, nat) -> Reply)
    requires AtLoopHead(s)
    ensures Run(LoopHead(s), CourseOf(reply, s.queue[0])) == LoopHead(T.Round(Success(reply), s))
  {
    var i, n := s.queue[0], Counter(s, ChannelOf(s, s.queue[0])) + 1;
    var mine := RepliesTo(reply, i);
    var numbered := s.(counters := s.counters[ChannelOf(s, i) := n], nonceOf := s.nonceOf[i := n], drains := [Publishing(i, n, 0, false)]);
    NumberHead(s, Course(mine, 0));
    RetryCourse("", Both(numbered, map[]), Publishing(i, n, 0, false), mine, "");
    SameSuccess(reply, i);
    RoundIsHeadDone(s, numbered, Success(reply));
  }

  lemma RoundsAtHead(s: Sender, success: (nat, nat) -> bool, n: nat)
    requires T.Ready(s) && s.processing && s.drains == [] && n < |s.queue|
    ensures var t := T.Rounds(success, s, n); AtLoopHead(t) && t.queue[0] == s.queue[n]
  {
    T.RoundsHead(success, s, n);
    T.NotEarlier(s, n);
    T.RoundsOutcome(success, s, n, s.queue[n]);
    RoundsKeepLoop(s, success, n);
  }

  lemma {:induction false} RoundsKeepLoop(s: Sender, success: (nat, nat) -> bool, n: nat)
    requires T.Ready(s) && n <= |s.queue|
    ensures var t := T.Rounds(success, s, n); t.processing == s.processing && t.drains == s.drains && t.conn == s.conn
  {
    if n > 0 { RoundsKeepLoop(s, success, n - 1); }
  }

  lemma {:induction false} RunConcat(s: Sender, evs: seq<Event>, more: seq<Event>)
    ensures Run(s, evs + more) == Run(Run(s, evs), more)
    decreases |evs|
  {
    if evs == [] {
      assert evs + more == more;
    } else {
      assert (evs + more)[0] == evs[0] && (evs + more)[1..] == evs[1..] + more;
      RunConcat(Step(s, evs[0]), evs[1..], more);
    }
  }

  lemma CoursesSnoc(reply: (nat, nat) -> Reply, queue: seq<nat>, n: nat)
    requires n < |queue|
    ensures CoursesOf(reply, queue[..n + 1]) == CoursesOf(reply, queue[..n]) + CourseOf(reply, queue[n])
  {
    assert queue[..n + 1][..n] == queue[..n];
  }

  lemma {:induction false} MachineRounds(s: Sender, reply: (nat, nat) -> Reply, n: nat)
    requires T.Ready(s) && s.processing && s.drains == [] && n <= |s.queue|
    ensures Run(LoopHead(s), CoursesOf(reply, s.queue[..n])) == LoopHead(T.Rounds(Success(reply), s, n))
  {
    if n > 0 {
      MachineRounds(s, reply, n - 1);
      CoursesSnoc(reply, s.queue, n - 1);
      RunConcat(LoopHead(s), CoursesOf(reply, s.queue[..n - 1]), CourseOf(reply, s.queue[n - 1]));
      RoundsAtHead(s, Success(reply), n - 1);
      MachineRound(T.Rounds(Success(reply), s, n - 1), reply);
    }
  }

  /** A transport that connects with messages waiting, and is then left alone, does exactly what the
      uninterrupted loop does: from "connected" on, the machine's run over the replies ends with an empty
      queue, the promises settled and the nonces given out as its rounds say. */
  lemma ConnectedDrains(s: Sender, reply: (nat, nat) -> Reply)
    requires T.Ready(s) && !s.processing && s.drains == []
    ensures Run(s, [ConnectedSeen] + CoursesOf(reply, s.queue))
            == T.Rounds(Success(reply), s.(conn := Connected, processing := true), |s.queue|).(processing := false)
  {
    var start := s.(conn := Connected, processing := true);
    RunSplit(s, ConnectedSeen, CoursesOf(reply, s.queue));
    assert Step(s, ConnectedSeen) == LoopHead(start);
    MachineRounds(start, reply, |s.queue|);
    assert s.queue[..|s.queue|] == s.queue;
    T.RoundsShape(Success(reply), start, |s.queue|);
  }
}
