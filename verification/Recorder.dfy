/** The absolute-cadence recorder: scheduler, overflow policies and slot accounting. */
module Recorder {
  import opened Wrappers

  datatype Overflow = Block | DropNewest | DropOldest

  type Delay = d: real | d >= 0.0

  /** How a poll ends: a batch, a lost connection (and whether a factory rebuilt the source), or another error. */
  datatype Outcome<+B> = Polled(batch: B) | Lost(rebuilt: bool) | Broke

  /** One turn of the environment: how long each wait takes and how many batches the consumer takes meanwhile. */
  datatype Turn<+B> = Turn(
    beforeDecision: Delay, beforeCheck: Delay, oversleep: Delay, pollTime: Delay,
    takenWhilePolling: nat, takenWhileSending: nat, outcome: Outcome<B>)

  datatype Fate = Sampled | Gap(pause: real, rebuilt: bool)

  predicate Rebuilt(fate: Fate)
  {
    fate.Gap? && fate.rebuilt
  }

  /** One poll: the slot that was up, the slot chosen, and when it was decided, started and finished. */
  datatype Attempt = Attempt(up: nat, slot: nat, decided: real, started: real, finished: real, fate: Fate)

  /** Where a run stands: at its loop head, past its last tick, ended by an error, or blocked on the consumer. */
  datatype End = AtHead | Finished | Raised | Blocked

  const BACKOFF: seq<real> := [0.5, 1.0, 2.0, 5.0, 10.0, 30.0]

  // ---------------------------------------------------------------- the scheduling decision

  /** The length of `k` periods, and how many periods a time is. */
  function Span(k: real, period: real): real
  {
    k * period
  }

  function Periods(time: real, period: real): real
    requires period > 0.0
  {
    time / period
  }

  /** The grid: slot `k` is due `k` periods after the start. */
  function Due(start: real, period: real, k: nat): real
  {
    start + Span(k as real, period)
  }

  /** The slot polled next, decided at time `now` with slot `tick` up. */
  function NextSlot(start: real, period: real, tick: nat, now: real): nat
    requires period > 0.0
  {
    var target := Due(start, period, tick);
    if now > target + period then
      Overrun(now - target, period);
      tick + Periods(now - target, period).Floor
    else tick
  }

  lemma Overrun(time: real, period: real)
    requires time > period > 0.0
    ensures var missed := Periods(time, period).Floor;
            missed >= 1 && Span(missed as real, period) <= time < Span(missed as real, period) + period
  {
    hide Periods, Span;
    var q := Periods(time, period);
    SpanOfPeriods(time, period);
    SpanGrows(1.0, q, period);
    SpanGrows(q.Floor as real, q, period);
    SpanGrows(q, q.Floor as real + 1.0, period);
    SpanAdds(q.Floor as real, 1.0, period);
  }

  lemma SpanOfPeriods(time: real, period: real)
    requires period > 0.0
    ensures Span(Periods(time, period), period) == time && Span(1.0, period) == period
  {
  }

  lemma SpanGrows(a: real, b: real, period: real)
    requires period > 0.0
    ensures a < b <==> Span(a, period) < Span(b, period)
  {
    Times(b - a, period);
    assert Span(b, period) - Span(a, period) == (b - a) * period;
  }

  lemma Times(a: real, b: real)
    requires b > 0.0
    ensures a > 0.0 <==> a * b > 0.0
  {
  }

  lemma SpanAdds(a: real, b: real, period: real)
    ensures Span(a + b, period) == Span(a, period) + Span(b, period)
    ensures Span(1.0, period) == period
  {
  }

  lemma Later(start: real, period: real, k: nat, m: nat)
    ensures Due(start, period, k + m) == Due(start, period, k) + Span(m as real, period)
    ensures Due(start, period, k + 1) == Due(start, period, k) + period
  {
    hide Span;
    assert (k + m) as real == k as real + m as real;
    SpanAdds(k as real, m as real, period);
    SpanAdds(k as real, 1.0, period);
  }

  /**
   * Whatever happened before, the slot decided on is due at most one period ago; after an
   * overrun it is the latest slot already due, and without one it is the slot that was up.
   */
  lemma DecisionOnGrid(start: real, period: real, tick: nat, now: real)
    requires period > 0.0
    ensures var k := NextSlot(start, period, tick, now);
            && tick <= k && now - Due(start, period, k) <= period
            && (k > tick ==> Due(start, period, k) <= now < Due(start, period, k + 1))
            && (k == tick <==> now <= Due(start, period, tick) + period)
  {
    hide Due, Span, Periods;
    var target := Due(start, period, tick);
    if now > target + period {
      var missed := Periods(now - target, period).Floor;
      Overrun(now - target, period);
      Later(start, period, tick, missed);
      Later(start, period, tick + missed, 0);
    }
  }

  /** With slots left, the chosen slot lies past the end exactly when the decision came after the end was due. */
  lemma PastTheEnd(start: real, period: real, tick: nat, now: real, total: nat)
    requires period > 0.0 && tick < total
    ensures NextSlot(start, period, tick, now) >= total
       <==> now > Due(start, period, tick) + period && now >= Due(start, period, total)
  {
    hide NextSlot, Span;
    var k := NextSlot(start, period, tick, now);
    DecisionOnGrid(start, period, tick, now);
    if k >= total {
      SpanGrows(k as real, total as real, period);
    } else {
      SpanGrows(total as real, (k + 1) as real, period);
    }
  }

  // ---------------------------------------------------------------- the log of a run

  /** The slot up after a log: one past the last slot polled. */
  function Up(log: seq<Attempt>): nat
  {
    if log == [] then 0 else log[|log| - 1].slot + 1
  }

  /** Failed reconnects since the last batch or rebuilt source. */
  function Failures(log: seq<Attempt>): nat
  {
    if log == [] then 0
    else
      var last := log[|log| - 1].fate;
      if last.Gap? && !last.rebuilt then Failures(log[..|log| - 1]) + 1 else 0
  }

  function Backoff(failures: nat): real
  {
    BACKOFF[if failures < |BACKOFF| then failures else |BACKOFF| - 1]
  }

  /** What one poll adds to a log: no slot decided late, no poll before its target, the next wait of the schedule. */
  ghost predicate Follows(start: real, period: real, total: Option<nat>, log: seq<Attempt>, a: Attempt)
    requires period > 0.0
  {
    && a.up == Up(log)
    && (total.Some? ==> a.up < total.value)
    && a.slot == NextSlot(start, period, a.up, a.decided)
    && (if log == [] then start else log[|log| - 1].finished) <= a.decided <= a.started <= a.finished
    && Due(start, period, a.slot) <= a.started
    && (a.fate.Gap? ==> a.fate.pause == Backoff(Failures(log)))
  }

  lemma GapFollows(start: real, period: real, total: Option<nat>, log: seq<Attempt>, a: Attempt, rebuilt: bool)
    requires period > 0.0 && Follows(start, period, total, log, a)
    ensures Follows(start, period, total, log, a.(fate := Gap(Backoff(Failures(log)), rebuilt)))
  {
  }

  ghost predicate OnSchedule(start: real, period: real, total: Option<nat>, log: seq<Attempt>)
    requires period > 0.0
  {
    forall i :: 0 <= i < |log| ==> Follows(start, period, total, log[..i], log[i])
  }

  lemma OnScheduleGrows(start: real, period: real, total: Option<nat>, log: seq<Attempt>, a: Attempt)
    requires period > 0.0 && OnSchedule(start, period, total, log) && Follows(start, period, total, log, a)
    ensures OnSchedule(start, period, total, log + [a])
  {
    hide Follows;
    var longer := log + [a];
    forall i | 0 <= i < |longer| ensures Follows(start, period, total, longer[..i], longer[i]) {
      assert longer[..i] == log[..i];
      if i == |log| { assert log[..i] == log; }
    }
  }

  /** Slots strictly increase along a log, and polls do not overlap. */
  lemma {:induction false} SlotsIncrease(start: real, period: real, total: Option<nat>, log: seq<Attempt>, i: nat, j: nat)
    requires period > 0.0 && OnSchedule(start, period, total, log) && i < j < |log|
    ensures i <= log[i].slot < log[j].up <= log[j].slot
    ensures log[i].finished <= log[j].decided
  {
    hide Due, NextSlot, Backoff, Failures;
    assert Follows(start, period, total, log[..j], log[j]);
    assert Follows(start, period, total, log[..i], log[i]);
    DecisionOnGrid(start, period, log[j].up, log[j].decided);
    DecisionOnGrid(start, period, log[i].up, log[i].decided);
    if i > 0 { SlotsIncrease(start, period, total, log, i - 1, i); }
    if i + 1 < j { SlotsIncrease(start, period, total, log, i, j - 1); }
  }

  /** The waits of the reconnect schedule: from half a second up to thirty, and never down. */
  lemma WaitsGrow(failures: nat)
    ensures Backoff(0) == 0.5 && Backoff(1) == 1.0 && Backoff(2) == 2.0 && Backoff(3) == 5.0 && Backoff(4) == 10.0
    ensures failures >= 5 ==> Backoff(failures) == 30.0
    ensures 0.5 <= Backoff(failures) <= Backoff(failures + 1) <= 30.0
  {
  }

  /** Along a run a lost connection waits half a second after a batch or a rebuilt source, and else no less than the last one. */
  lemma GapsGrow(start: real, period: real, total: Option<nat>, log: seq<Attempt>, i: nat)
    requires period > 0.0 && OnSchedule(start, period, total, log) && i < |log| && log[i].fate.Gap?
    ensures i == 0 || log[i - 1].fate.Sampled? || log[i - 1].fate.rebuilt ==> log[i].fate.pause == 0.5
    ensures i > 0 && log[i - 1].fate.Gap? && !log[i - 1].fate.rebuilt ==> log[i - 1].fate.pause <= log[i].fate.pause
  {
    hide Due, NextSlot, Backoff, Up;
    assert Follows(start, period, total, log[..i], log[i]);
    WaitsGrow(0);
    if i > 0 {
      assert log[..i][..i - 1] == log[..i - 1];
      assert Follows(start, period, total, log[..i - 1], log[i - 1]);
      WaitsGrow(Failures(log[..i - 1]));
    }
  }

  /**
   * No drift accumulates: each poll starts at or after its grid point and was decided at most
   * one period after it, however long the earlier ones took.
   */
  lemma NeverEarlyNeverDrifting(start: real, period: real, total: Option<nat>, log: seq<Attempt>, i: nat)
    requires period > 0.0 && OnSchedule(start, period, total, log) && i < |log|
    ensures Due(start, period, log[i].slot) <= log[i].started
    ensures log[i].decided - Due(start, period, log[i].slot) <= period
  {
    hide Due, NextSlot, Backoff, Failures;
    assert Follows(start, period, total, log[..i], log[i]);
    DecisionOnGrid(start, period, log[i].up, log[i].decided);
  }

  /** A bounded run makes at most `total` polls, and only its last one can lie past the end. */
  lemma BoundedRun(start: real, period: real, total: nat, log: seq<Attempt>)
    requires period > 0.0 && OnSchedule(start, period, Some(total), log)
    ensures |log| <= Up(log) && |log| <= total
    ensures forall i :: 0 <= i < |log| - 1 ==> log[i].slot < total
    ensures log != [] ==> var a := log[|log| - 1];
              (a.slot >= total <==> a.decided > Due(start, period, a.up) + period && a.decided >= Due(start, period, total))
  {
    hide Due, NextSlot;
    var n := |log|;
    if n > 0 {
      var a := log[n - 1];
      assert Follows(start, period, Some(total), log[..n - 1], a);
      DecisionOnGrid(start, period, a.up, a.decided);
      PastTheEnd(start, period, a.up, a.decided, total);
      if n > 1 { SlotsIncrease(start, period, Some(total), log, n - 2, n - 1); }
      forall i | 0 <= i < n - 1 ensures log[i].slot < total {
        SlotsIncrease(start, period, Some(total), log, i, n - 1);
      }
    }
  }

  /** How late a poll finished against its grid point, in milliseconds. */
  function Drift(start: real, period: real, a: Attempt): real
  {
    (a.finished - Due(start, period, a.slot)) * 1000.0
  }

  function Worst(start: real, period: real, log: seq<Attempt>): real
  {
    if log == [] then 0.0
    else
      var a := log[|log| - 1];
      var before := Worst(start, period, log[..|log| - 1]);
      if a.fate.Sampled? && Drift(start, period, a) > before then Drift(start, period, a) else before
  }

  /** `Worst` is the largest drift of a sampled poll, and zero when there is no positive one. */
  lemma {:induction false} WorstIsLargest(start: real, period: real, log: seq<Attempt>)
    ensures var w := Worst(start, period, log);
      && w >= 0.0
      && (forall a <- log :: a.fate.Sampled? ==> Drift(start, period, a) <= w)
      && (w == 0.0 || exists a <- log :: a.fate.Sampled? && w == Drift(start, period, a))
  {
    hide Drift;
    if log != [] {
      WorstIsLargest(start, period, log[..|log| - 1]);
      assert log == log[..|log| - 1] + [log[|log| - 1]];
    }
  }

  /** When a poll was decided, started and finished: it waits for its target, and only if that is still to come. */
  predicate Timed<B>(clock: real, t: Turn<B>, target: real, a: Attempt)
  {
    && a.decided == clock + t.beforeDecision
    && a.started == (if a.decided + t.beforeCheck < target then target + t.oversleep else a.decided + t.beforeCheck)
    && a.finished == a.started + t.pollTime
  }

  // ---------------------------------------------------------------- what the consumer sees

  /** `out` is picked from `src` in order, at the places `kept`. */
  ghost predicate Picked<B>(out: seq<B>, src: seq<B>, kept: seq<nat>)
  {
    && |kept| == |out|
    && (forall i :: 0 <= i < |kept| ==> kept[i] < |src| && out[i] == src[kept[i]])
    && (forall i, j :: 0 <= i < j < |kept| ==> kept[i] < kept[j])
  }

  lemma PickedGrows<B>(out: seq<B>, src: seq<B>, kept: seq<nat>, b: B)
    requires Picked(out, src, kept)
    ensures Picked(out, src + [b], kept)
    ensures Picked(out + [b], src + [b], kept + [|src|])
  {
  }

  lemma PickedDrops<B>(out: seq<B>, src: seq<B>, kept: seq<nat>, k: nat)
    requires Picked(out, src, kept) && k < |out|
    ensures Picked(out[..k] + out[k + 1..], src, kept[..k] + kept[k + 1..])
  {
  }

  /** Everything a run has to account for. */
  datatype Books<+B> = Books(
    delivered: seq<B>, queue: seq<B>, polled: seq<B>, kept: seq<nat>, emitted: nat, late: nat, evicted: nat)

  /** Nothing polled is unaccounted for, and the policy's own promise holds. */
  ghost predicate Balanced<B>(overflow: Overflow, cap: nat, books: Books<B>)
  {
    && |books.queue| <= cap
    && books.emitted == |books.delivered| + |books.queue| + books.evicted
    && (overflow != DropOldest ==> books.evicted == 0)
    && Picked(books.delivered + books.queue, books.polled, books.kept)
    && (overflow == Block ==> books.delivered + books.queue == books.polled)
    && (overflow == DropOldest ==>
          && |books.queue| <= |books.polled|
          && books.queue == books.polled[|books.polled| - |books.queue|..])
  }

  function Taken<B>(books: Books<B>, n: nat): Books<B>
  {
    var m := if n < |books.queue| then n else |books.queue|;
    books.(delivered := books.delivered + books.queue[..m], queue := books.queue[m..])
  }

  function Sent<B>(books: Books<B>, b: B): Books<B>
  {
    books.(queue := books.queue + [b], polled := books.polled + [b], kept := books.kept + [|books.polled|],
           emitted := books.emitted + 1)
  }

  function Dropped<B>(books: Books<B>, b: B): Books<B>
  {
    books.(polled := books.polled + [b], late := books.late + 1)
  }

  /** The oldest queued batch is thrown away. */
  function Evicted<B>(books: Books<B>): Books<B>
    requires books.queue != [] && |books.delivered| < |books.kept|
  {
    var k := |books.delivered|;
    books.(queue := books.queue[1..], kept := books.kept[..k] + books.kept[k + 1..], late := books.late + 1,
           evicted := books.evicted + 1)
  }

  lemma TakenBalanced<B>(overflow: Overflow, cap: nat, books: Books<B>, n: nat)
    requires Balanced(overflow, cap, books)
    ensures Balanced(overflow, cap, Taken(books, n))
    ensures Taken(books, n).delivered + Taken(books, n).queue == books.delivered + books.queue
    ensures Taken(books, n).polled == books.polled && Taken(books, n).late == books.late
    ensures Taken(books, n).emitted - Taken(books, n).evicted == books.emitted - books.evicted
  {
    hide Picked;
    var m := if n < |books.queue| then n else |books.queue|;
    assert books.delivered + books.queue[..m] + books.queue[m..] == books.delivered + books.queue;
    if overflow == DropOldest { SuffixOfSuffix(books.polled, |books.queue|, m); }
  }

  lemma SuffixOfSuffix<B>(s: seq<B>, n: nat, m: nat)
    requires m <= n <= |s|
    ensures s[|s| - n..][m..] == s[|s| - (n - m)..]
  {
  }

  lemma Shape<B>(overflow: Overflow, cap: nat, books: Books<B>, late: nat)
    requires Balanced(overflow, cap, books)
    ensures |books.kept| == |books.delivered| + |books.queue| && |books.queue| <= cap
    ensures Balanced(overflow, cap, books.(late := late))
  {
  }

  lemma SentBalanced<B>(overflow: Overflow, cap: nat, books: Books<B>, b: B)
    requires Balanced(overflow, cap, books) && |books.queue| < cap
    ensures Balanced(overflow, cap, Sent(books, b))
  {
    PickedGrows(books.delivered + books.queue, books.polled, books.kept, b);
    assert books.delivered + (books.queue + [b]) == books.delivered + books.queue + [b];
  }

  lemma EvictedBalanced<B>(cap: nat, books: Books<B>)
    requires Balanced(DropOldest, cap, books) && books.queue != []
    ensures |books.delivered| < |books.kept| && Balanced(DropOldest, cap, Evicted(books))
  {
    var out, k := books.delivered + books.queue, |books.delivered|;
    PickedDrops(out, books.polled, books.kept, k);
    assert out[..k] + out[k + 1..] == books.delivered + books.queue[1..];
  }

  /**
   * Offers a batch by the overflow policy; None while a blocking producer still waits. `taken` is how
   * many batches the consumer takes once the first attempt has found the queue full.
   */
  function Offered<B>(overflow: Overflow, cap: nat, books: Books<B>, b: B, taken: nat): Option<Books<B>>
    requires |books.kept| == |books.delivered| + |books.queue|
  {
    if |books.queue| < cap then Some(Sent(books, b))
    else match overflow
      case Block => if taken == 0 then None else Some(Taken(Sent(Taken(books, 1), b), taken - 1))
      case DropNewest => Some(Dropped(books, b))
      case DropOldest =>
        var rest := Taken(books, taken);
        Some(Sent(if rest.queue == [] then rest else Evicted(rest), b))
  }

  /**
   * Every policy keeps the accounts balanced, uses up exactly one slot and loses a batch only to a full
   * queue: a blocking producer none, the others the newest or the oldest one.
   */
  lemma OfferedBalanced<B>(overflow: Overflow, cap: nat, books: Books<B>, b: B, taken: nat)
    requires cap >= 1 && Balanced(overflow, cap, books)
    ensures var after := Offered(overflow, cap, books, b, taken);
      && (after.None? <==> overflow == Block && |books.queue| == cap && taken == 0)
      && (after.Some? ==>
            && Balanced(overflow, cap, after.value) && after.value.polled == books.polled + [b]
            && after.value.emitted + after.value.late - after.value.evicted == books.emitted + books.late - books.evicted + 1
            && after.value.evicted - books.evicted <= 1
            && (overflow != DropNewest || |books.queue| < cap ==> after.value.emitted == books.emitted + 1)
            && (overflow == DropOldest && |books.queue| == cap && taken == 0 ==> after.value.queue == books.queue[1..] + [b])
            && (overflow == DropNewest && |books.queue| == cap ==> after.value.queue == books.queue))
  {
    hide Picked;
    if |books.queue| < cap {
      SentBalanced(overflow, cap, books, b);
    } else if overflow == DropNewest {
      PickedGrows(books.delivered + books.queue, books.polled, books.kept, b);
    } else if overflow == DropOldest {
      TakenBalanced(overflow, cap, books, taken);
      var rest := Taken(books, taken);
      if rest.queue != [] {
        EvictedBalanced(cap, rest);
        SentBalanced(overflow, cap, Evicted(rest), b);
      } else {
        SentBalanced(overflow, cap, rest, b);
      }
    } else if taken > 0 {
      TakenBalanced(overflow, cap, books, 1);
      SentBalanced(overflow, cap, Taken(books, 1), b);
      TakenBalanced(overflow, cap, Sent(Taken(books, 1), b), taken - 1);
    }
  }

  /** The batches the poller returned in some turns, in order. */
  function Returned<B>(turns: seq<Turn<B>>): seq<B>
  {
    if turns == [] then []
    else
      var last := turns[|turns| - 1].outcome;
      Returned(turns[..|turns| - 1]) + if last.Polled? then [last.batch] else []
  }

  // ---------------------------------------------------------------- the producer

  class Recorder<B> {
    const start: real
    const period: real
    const total: Option<nat>
    const overflow: Overflow
    const cap: nat
    const autoReconnect: bool
    const hasFactory: bool

    var tick: nat
    var backoffIdx: nat
    var maxDriftMs: real
    var disconnects: nat
    var emitted: nat
    var late: nat
    var clock: real
    var queue: seq<B>

    ghost var delivered: seq<B>
    ghost var polled: seq<B>
    ghost var kept: seq<nat>
    ghost var evicted: nat
    ghost var log: seq<Attempt>

    ghost function Ledger(): Books<B>
      reads this
    {
      Books(delivered, queue, polled, kept, emitted, late, evicted)
    }

    /** Every slot used up is accounted for, and every batch polled. */
    ghost predicate Accounted()
      reads this
    {
      period > 0.0 && cap >= 1 && Balanced(overflow, cap, Ledger()) && emitted + late == tick + evicted
    }

    ghost predicate Valid()
      reads this
    {
      && Accounted()
      && OnSchedule(start, period, total, log)
      && tick == Up(log)
      && backoffIdx == Failures(log)
      && maxDriftMs == Worst(start, period, log)
      && (if log == [] then start else log[|log| - 1].finished) <= clock
    }

    /** The poll keeps to the schedule of this recorder after a log. */
    ghost predicate Keeps(log: seq<Attempt>, a: Attempt)
    {
      period > 0.0 && Follows(start, period, total, log, a)
    }

    constructor (start: real, period: real, total: Option<nat>, overflow: Overflow, cap: nat, autoReconnect: bool, hasFactory: bool)
      requires period > 0.0 && cap >= 1
      ensures Valid() && log == [] && polled == [] && delivered == [] && queue == [] && tick == 0 && clock == start
      ensures this.start == start && this.period == period && this.total == total && this.overflow == overflow
      ensures this.cap == cap && this.autoReconnect == autoReconnect && this.hasFactory == hasFactory
    {
      this.start, this.period, this.total := start, period, total;
      this.overflow, this.cap, this.autoReconnect, this.hasFactory := overflow, cap, autoReconnect, hasFactory;
      tick, backoffIdx, maxDriftMs, disconnects, emitted, late := 0, 0, 0.0, 0, 0, 0;
      clock, queue := start, [];
      delivered, polled, kept, evicted, log := [], [], [], 0, [];
    }

    /** The consumer takes up to `n` batches from the front of the queue. */
    method Consume(n: nat)
      modifies this`queue, this`delivered
      ensures Ledger() == Taken(old(Ledger()), n)
    {
      var m := if n < |queue| then n else |queue|;
      delivered, queue := delivered + queue[..m], queue[m..];
    }

    /** Appends the batch if it fits. */
    method SendNowait(batch: B) returns (sent: bool)
      modifies this`queue, this`emitted, this`polled, this`kept
      ensures sent == (|old(queue)| < cap)
      ensures Ledger() == if sent then Sent(old(Ledger()), batch) else old(Ledger())
    {
      sent := |queue| < cap;
      if sent {
        kept, polled := kept + [|polled|], polled + [batch];
        queue, emitted := queue + [batch], emitted + 1;
      }
    }

    /** Throws the oldest queued batch away, if there is one. */
    method Evict()
      requires queue != [] ==> |delivered| < |kept|
      modifies this`queue, this`late, this`kept, this`evicted
      ensures Ledger() == if old(queue) == [] then old(Ledger()) else Evicted(old(Ledger()))
    {
      if queue != [] {
        ghost var k := |delivered|;
        queue, late := queue[1..], late + 1;
        kept, evicted := kept[..k] + kept[k + 1..], evicted + 1;
      }
    }

    /** Enqueues a batch by the overflow policy, or reports that the producer is still waiting. */
    method Publish(batch: B, taken: nat) returns (published: bool)
      requires cap >= 1 && |kept| == |delivered| + |queue| && |queue| <= cap
      modifies this`queue, this`emitted, this`late, this`delivered, this`polled, this`kept, this`evicted
      ensures Offered(overflow, cap, old(Ledger()), batch, taken) == if published then Some(Ledger()) else None
      ensures !published ==> Ledger() == old(Ledger())
    {
      published := SendNowait(batch);
      if published { return; }
      match overflow
      case Block =>
        if taken > 0 {
          Consume(1);
          published := SendNowait(batch);
          Consume(taken - 1);
        }
      case DropNewest =>
        late, polled, published := late + 1, polled + [batch], true;
      case DropOldest =>
        Consume(taken);
        ghost var rest := Ledger();
        while !published
          invariant published ==> Ledger() == Sent(if rest.queue == [] then rest else Evicted(rest), batch)
          invariant !published ==> Ledger() == rest
          decreases !published
        {
          Evict();
          published := SendNowait(batch);
        }
    }

    /** Picks the slot to poll, counting the slots skipped after an overrun as late. */
    method Decide() returns (target: real)
      requires period > 0.0
      modifies this`tick, this`late
      ensures tick == NextSlot(start, period, old(tick), clock) && target == Due(start, period, tick)
      ensures tick >= old(tick) && late - tick == old(late - tick)
    {
      target := start + Span(tick as real, period);
      if clock > target + period {
        Overrun(clock - target, period);
        var missed := Periods(clock - target, period).Floor;
        late := late + missed;
        tick := tick + missed;
        target := start + Span(tick as real, period);
      }
    }

    /** Waits out a lost connection and counts its slot as late. */
    method Recover(rebuilt: bool) returns (wait: real)
      modifies this`late, this`disconnects, this`clock, this`backoffIdx
      ensures wait == Backoff(old(backoffIdx)) && clock == old(clock) + wait > old(clock)
      ensures late == old(late) + 1 && disconnects == old(disconnects) + 1
      ensures backoffIdx == if hasFactory && rebuilt then 0 else old(backoffIdx) + 1
    {
      late := late + 1;
      disconnects := disconnects + 1;
      wait := BACKOFF[if backoffIdx < |BACKOFF| - 1 then backoffIdx else |BACKOFF| - 1];
      clock := clock + wait;
      if hasFactory && rebuilt { backoffIdx := 0; } else { backoffIdx := backoffIdx + 1; }
    }

    /** Records the drift of a finished poll and publishes its batch. */
    method Deliver(batch: B, target: real, taken: nat) returns (sent: bool)
      requires cap >= 1 && Balanced(overflow, cap, Ledger())
      modifies this`queue, this`emitted, this`late, this`delivered, this`polled, this`kept, this`evicted
      modifies this`backoffIdx, this`maxDriftMs
      ensures backoffIdx == 0
      ensures maxDriftMs == if (clock - target) * 1000.0 > old(maxDriftMs) then (clock - target) * 1000.0 else old(maxDriftMs)
      ensures !sent <==> overflow == Block && |old(queue)| == cap && taken == 0
      ensures Balanced(overflow, cap, Ledger()) && polled == old(polled) + if sent then [batch] else []
      ensures !sent ==> Ledger() == old(Ledger())
      ensures sent ==> emitted + late - evicted == old(emitted + late - evicted) + 1
    {
      hide Balanced, Offered;
      backoffIdx := 0;
      var drift := (clock - target) * 1000.0;
      maxDriftMs := if drift > maxDriftMs then drift else maxDriftMs;
      Shape(overflow, cap, Ledger(), late);
      OfferedBalanced(overflow, cap, Ledger(), batch, taken);
      sent := Publish(batch, taken);
    }

    /** The first half of a pass: choose the slot, sleep until it is due and poll. */
    method Poll(t: Turn<B>) returns (target: real, ghost a: Attempt)
      requires Valid() && (total.Some? ==> tick < total.value)
      modifies this`tick, this`late, this`clock, this`queue, this`delivered
      ensures Accounted()
      ensures Follows(start, period, total, log, a) && a.fate.Sampled?
      ensures a.slot == tick && a.finished == clock && target == Due(start, period, tick)
      ensures Timed(old(clock), t, target, a)
    {
      hide Balanced, OnSchedule, NextSlot, Due, Failures, Worst, Backoff, Up, Taken;
      ghost var before := Ledger();
      clock := clock + t.beforeDecision;
      ghost var up, decided := tick, clock;
      target := Decide();
      Shape(overflow, cap, before, late);
      TakenBalanced(overflow, cap, Ledger(), t.takenWhilePolling);
      clock := clock + t.beforeCheck;
      if clock < target { clock := target + t.oversleep; }
      ghost var started := clock;
      clock := clock + t.pollTime;
      Consume(t.takenWhilePolling);
      a := Attempt(up, tick, decided, started, clock, Sampled);
    }

    /** The second half after a lost connection: one slot lost, and a wait. */
    method Reconnect(rebuilt: bool, ghost a: Attempt) returns (ghost b: Attempt)
      requires Accounted() && Follows(start, period, total, log, a) && backoffIdx == Failures(log)
      modifies this`late, this`disconnects, this`clock, this`backoffIdx
      ensures Balanced(overflow, cap, Ledger()) && emitted + late == tick + 1 + evicted
      ensures b == a.(fate := b.fate) && b.fate.Gap? && b.fate.rebuilt == (hasFactory && rebuilt)
      ensures Follows(start, period, total, log, b)
      ensures clock == old(clock) + b.fate.pause >= old(clock) && disconnects == old(disconnects) + 1
      ensures backoffIdx == if hasFactory && rebuilt then 0 else old(backoffIdx) + 1
    {
      hide Balanced, Failures, Backoff, Follows;
      GapFollows(start, period, total, log, a, hasFactory && rebuilt);
      ghost var before := Ledger();
      var wait := Recover(rebuilt);
      Shape(overflow, cap, before, late);
      b := a.(fate := Gap(wait, hasFactory && rebuilt));
    }

    /**
     * One pass of the producer loop. However it ends the accounts balance; a batch that is still in the
     * producer's hands, or was never polled, is not among those polled.
     */
    method Tick(t: Turn<B>) returns (end: End, ghost a: Attempt)
      requires Valid() && (total.Some? ==> tick < total.value)
      modifies this
      ensures Accounted() && Keeps(old(log), a) && Timed(old(clock), t, Due(start, period, a.slot), a)
      ensures end == AtHead ==> Valid() && log == old(log) + [a]
      ensures end == AtHead ==> clock == a.finished + if a.fate.Gap? then a.fate.pause else 0.0
      ensures end == AtHead ==> a.fate.Sampled? == t.outcome.Polled? && Rebuilt(a.fate) == (hasFactory && t.outcome == Lost(true))
      ensures disconnects == old(disconnects) + if end == AtHead && t.outcome.Lost? then 1 else 0
      ensures polled == old(polled) + if end == AtHead then Returned([t]) else []
      ensures end != AtHead ==> log == old(log)
      ensures end == Raised <==> t.outcome.Broke? || (t.outcome.Lost? && !autoReconnect)
      ensures end == Blocked ==> overflow == Block && |queue| == cap && t.outcome.Polled? && t.takenWhileSending == 0
      ensures end != Finished
    {
      hide Balanced, OnSchedule, NextSlot, Due, Failures, Worst, Backoff, Up, Follows, Span;
      ReturnedOne(t);
      var target: real;
      target, a := Poll(t);
      match t.outcome {
        case Broke => return Raised, a;
        case Lost(rebuilt) =>
          if !autoReconnect { return Raised, a; }
          a := Reconnect(rebuilt, a);
        case Polled(batch) =>
          var sent := Deliver(batch, target, t.takenWhileSending);
          if !sent { return Blocked, a; }
      }
      Log(a);
      tick := tick + 1;
      end := AtHead;
    }

    ghost method Log(a: Attempt)
      requires period > 0.0 && OnSchedule(start, period, total, log) && Follows(start, period, total, log, a)
      modifies this`log
      ensures log == old(log) + [a]
      ensures OnSchedule(start, period, total, log)
      ensures Up(log) == a.slot + 1
      ensures Failures(log) == if a.fate.Gap? && !a.fate.rebuilt then Failures(old(log)) + 1 else 0
      ensures var drift, worst := Drift(start, period, a), Worst(start, period, old(log));
              Worst(start, period, log) == if a.fate.Sampled? && drift > worst then drift else worst
    {
      hide OnSchedule, Follows, Drift;
      OnScheduleGrows(start, period, total, log, a);
      assert (log + [a])[..|log|] == log;
      log := log + [a];
    }

    /**
     * The producer loop, for as many turns as the environment grants. What was polled is what the poller
     * returned in the turns used up; a run cut short by an error or a stuck consumer ends in the poll `cut`.
     */
    method RunProducer(turns: seq<Turn<B>>) returns (end: End, used: nat, ghost cut: Option<Attempt>)
      requires Valid()
      modifies this
      ensures used <= |turns| && Accounted() && period > 0.0 && OnSchedule(start, period, total, log)
      ensures polled == old(polled) + Returned(turns[..used])
      ensures |log| == |old(log)| + used && log[..|old(log)|] == old(log)
      ensures end in {AtHead, Finished} ==> Valid() && cut.None?
      ensures end in {Raised, Blocked} ==> used < |turns| && cut.Some? && Keeps(log, cut.value)
      ensures end == Raised ==> turns[used].outcome.Broke? || (turns[used].outcome.Lost? && !autoReconnect)
      ensures end == Blocked ==>
                overflow == Block && |queue| == cap && turns[used].outcome.Polled? && turns[used].takenWhileSending == 0
      ensures end == AtHead ==> used == |turns| && (total.None? || tick < total.value)
      ensures end == Finished ==> total.Some? && total.value <= tick
      ensures total.Some? && |turns| >= total.value ==> end != AtHead
    {
      hide Balanced, OnSchedule, Failures, Worst, Follows, Returned, Timed;
      end, used, cut := AtHead, 0, None;
      ReturnedNone(turns);
      while used < |turns| && (total.None? || tick < total.value)
        invariant used <= |turns| && Valid() && end == AtHead && cut == None
        invariant |log| == |old(log)| + used && log[..|old(log)|] == old(log)
        invariant polled == old(polled) + Returned(turns[..used])
        decreases |turns| - used
      {
        ghost var a;
        ReturnedNext(turns, used);
        end, a := Tick(turns[used]);
        if end != AtHead {
          cut := Some(a);
          return;
        }
        used := used + 1;
      }
      if total.Some? {
        BoundedRun(start, period, total.value, log);
        if total.value <= tick { end := Finished; }
      }
    }
  }

  /** A run of one tick whose only poll is of slot 1 or later, because the first decision came two periods late. */
  method PollPastTheEnd<B>(batch: B) returns (end: End, ghost a: Attempt, tick: nat)
    ensures a.up == 0 && a.slot >= 1 && tick > 1 && end == AtHead && a.fate.Sampled?
  {
    var recorder := new Recorder<B>(0.0, 1.0, Some(1), Block, 1, false, false);
    var late: Delay, none: Delay := 2.0, 0.0;
    ReturnedOne(Turn(late, none, none, none, 0, 0, Polled(batch)));
    end, a := recorder.Tick(Turn(late, none, none, none, 0, 0, Polled(batch)));
    assert 1 as real == 1.0 && 0 as real == 0.0;
    PastTheEnd(0.0, 1.0, 0, a.decided, 1);
    tick := recorder.tick;
  }

  lemma ReturnedOne<B>(t: Turn<B>)
    ensures Returned([t]) == if t.outcome.Polled? then [t.outcome.batch] else []
  {
    assert Returned([t]) == Returned([t][..0]) + Returned([t]);
  }

  lemma ReturnedNone<B>(turns: seq<Turn<B>>)
    ensures Returned(turns[..0]) == []
  {
  }

  lemma ReturnedNext<B>(turns: seq<Turn<B>>, k: nat)
    requires k < |turns|
    ensures Returned(turns[..k + 1]) == Returned(turns[..k]) + Returned([turns[k]])
  {
    ReturnedOne(turns[k]);
    assert turns[..k + 1][..k] == turns[..k];
  }
}
