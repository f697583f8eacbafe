/** The buffered flush drivers between a recording and a sink, in their async and sync forms. */
module Sinks {
  import opened Wrappers
  import opened Sequences
  import opened Recorder

  datatype PipeError = BatchSizeTooSmall | FlushIntervalNotPositive

  class Sink<S> {
    var writes: seq<seq<S>>

    method WriteMany(samples: seq<S>)
      modifies this
      ensures writes == old(writes) + [samples]
    {
      writes := writes + [samples];
    }
  }

  // ---------------------------------------------------------------- the specification

  function NonEmpty<S>(writes: seq<seq<S>>): seq<seq<S>>
  {
    if writes == [] then []
    else
      var last := writes[|writes| - 1];
      NonEmpty(writes[..|writes| - 1]) + if last == [] then [] else [last]
  }

  lemma NonEmptySnoc<S>(writes: seq<seq<S>>, w: seq<S>)
    ensures NonEmpty(writes + [w]) == NonEmpty(writes) + if w == [] then [] else [w]
  {
    assert (writes + [w])[..|writes|] == writes;
  }

  /** One batch with the clock reading taken after it arrived. */
  datatype Arrival<S> = Arrival(batch: seq<S>, now: real)

  datatype Driver<S> = Driver(buffer: seq<S>, lastFlush: real, writes: seq<seq<S>>)

  function Batches<S>(arrivals: seq<Arrival<S>>): seq<seq<S>>
  {
    seq(|arrivals|, i requires 0 <= i < |arrivals| => arrivals[i].batch)
  }

  /** A driver after some arrivals; one that is `lazy` never writes an empty buffer. */
  function After<S>(lazy: bool, start: real, size: int, interval: real, arrivals: seq<Arrival<S>>): Driver<S>
  {
    if arrivals == [] then Driver([], start, [])
    else
      var before := After(lazy, start, size, interval, arrivals[..|arrivals| - 1]);
      var a := arrivals[|arrivals| - 1];
      var buffer := before.buffer + a.batch;
      if |buffer| >= size || a.now - before.lastFlush >= interval then
        Driver([], a.now, if lazy && buffer == [] then before.writes else before.writes + [buffer])
      else Driver(buffer, before.lastFlush, before.writes)
  }

  /** All writes of a finished run: those on the way and the final flush. */
  function Writes<S>(lazy: bool, start: real, size: int, interval: real, arrivals: seq<Arrival<S>>): seq<seq<S>>
  {
    var d := After(lazy, start, size, interval, arrivals);
    if d.buffer == [] then d.writes else d.writes + [d.buffer]
  }

  /** Nothing is lost, doubled or reordered on the way through the buffer. */
  lemma {:induction false} NothingLost<S>(lazy: bool, start: real, size: int, interval: real, arrivals: seq<Arrival<S>>)
    ensures var d := After(lazy, start, size, interval, arrivals); Flatten(d.writes) + d.buffer == Flatten(Batches(arrivals))
  {
    if arrivals != [] {
      var before := After(lazy, start, size, interval, arrivals[..|arrivals| - 1]);
      var b := arrivals[|arrivals| - 1].batch;
      NothingLost(lazy, start, size, interval, arrivals[..|arrivals| - 1]);
      assert Batches(arrivals) == Batches(arrivals[..|arrivals| - 1]) + [b];
      FlattenSnoc(Batches(arrivals[..|arrivals| - 1]), b);
      FlattenSnoc(before.writes, before.buffer + b);
    }
  }

  lemma WritesConserve<S>(lazy: bool, start: real, size: int, interval: real, arrivals: seq<Arrival<S>>)
    ensures Flatten(Writes(lazy, start, size, interval, arrivals)) == Flatten(Batches(arrivals))
  {
    var d := After(lazy, start, size, interval, arrivals);
    NothingLost(lazy, start, size, interval, arrivals);
    FlattenSnoc(d.writes, d.buffer);
  }

  /** After every arrival the buffer is short, and it is empty once the interval has passed. */
  lemma BufferStaysSmall<S>(lazy: bool, start: real, size: int, interval: real, arrivals: seq<Arrival<S>>)
    requires size >= 1 && interval > 0.0
    ensures var d := After(lazy, start, size, interval, arrivals);
      && |d.buffer| < size
      && (d.buffer != [] ==> arrivals[|arrivals| - 1].now - d.lastFlush < interval)
  {
  }

  /** The last flush before batch `k`: at the start, or when the batch before it arrived. */
  function FlushedAt<S>(start: real, arrivals: seq<Arrival<S>>, k: nat): real
    requires k <= |arrivals|
  {
    if k == 0 then start else arrivals[k - 1].now
  }

  /** The batches from `i` up to `j`, as one. */
  function Between<S>(arrivals: seq<Arrival<S>>, i: nat, j: nat): seq<S>
    requires i <= j <= |arrivals|
  {
    Flatten(Batches(arrivals[i..j]))
  }

  /** Since the flush before batch `i` enough samples or enough time have come with the batches up to `j`. */
  predicate FlushDue<S>(start: real, size: int, interval: real, arrivals: seq<Arrival<S>>, i: nat, j: nat)
    requires i < j <= |arrivals|
  {
    |Between(arrivals, i, j)| >= size || arrivals[j - 1].now - FlushedAt(start, arrivals, i) >= interval
  }

  /** No flush has become due since the one before batch `i`. */
  ghost predicate Quiet<S>(start: real, size: int, interval: real, arrivals: seq<Arrival<S>>, i: nat, j: nat)
    requires i <= j <= |arrivals|
  {
    forall m :: i < m <= j ==> !FlushDue(start, size, interval, arrivals, i, m)
  }

  /** After the flush before batch `i` the next one becomes due with batch `j - 1`, and not earlier. */
  ghost predicate NextDue<S>(start: real, size: int, interval: real, arrivals: seq<Arrival<S>>, i: nat, j: nat)
    requires i < j <= |arrivals|
  {
    FlushDue(start, size, interval, arrivals, i, j) && Quiet(start, size, interval, arrivals, i, j - 1)
  }

  predicate Increasing(cuts: seq<nat>, n: nat)
  {
    && cuts != [] && cuts[0] == 0 && cuts[|cuts| - 1] <= n
    && forall k, m :: 0 <= k < m < |cuts| ==> cuts[k] < cuts[m]
  }

  /** The flushes of a run come before these batches, each when it first became due. */
  ghost predicate Flushes<S>(start: real, size: int, interval: real, arrivals: seq<Arrival<S>>, cuts: seq<nat>)
    requires Increasing(cuts, |arrivals|)
  {
    forall k :: 0 <= k < |cuts| - 1 ==> NextDue(start, size, interval, arrivals, cuts[k], cuts[k + 1])
  }

  /** The batches between the flushes, each stretch as one. */
  function Stretches<S>(arrivals: seq<Arrival<S>>, cuts: seq<nat>): seq<seq<S>>
    requires Increasing(cuts, |arrivals|)
  {
    seq(|cuts| - 1, k requires 0 <= k < |cuts| - 1 => Between(arrivals, cuts[k], cuts[k + 1]))
  }

  lemma BetweenGrows<S>(arrivals: seq<Arrival<S>>, i: nat)
    requires arrivals != [] && i < |arrivals|
    ensures var n := |arrivals| - 1; Between(arrivals, i, n + 1) == Between(arrivals[..n], i, n) + arrivals[n].batch
  {
    var n := |arrivals| - 1;
    assert arrivals[i..n + 1] == arrivals[i..n] + [arrivals[n]];
    assert arrivals[..n][i..n] == arrivals[i..n];
    assert Batches(arrivals[i..n + 1]) == Batches(arrivals[i..n]) + [arrivals[n].batch];
    FlattenSnoc(Batches(arrivals[i..n]), arrivals[n].batch);
  }

  lemma SameBefore<S>(start: real, size: int, interval: real, arrivals: seq<Arrival<S>>, n: nat, i: nat, j: nat)
    requires i <= j <= n <= |arrivals|
    ensures Between(arrivals[..n], i, j) == Between(arrivals, i, j) && FlushedAt(start, arrivals[..n], i) == FlushedAt(start, arrivals, i)
    ensures i < j ==> FlushDue(start, size, interval, arrivals[..n], i, j) == FlushDue(start, size, interval, arrivals, i, j)
  {
    assert arrivals[..n][i..j] == arrivals[i..j];
  }

  lemma QuietBefore<S>(start: real, size: int, interval: real, arrivals: seq<Arrival<S>>, n: nat, i: nat, j: nat)
    requires i <= j <= n <= |arrivals|
    ensures Quiet(start, size, interval, arrivals[..n], i, j) == Quiet(start, size, interval, arrivals, i, j)
    ensures i < j ==> NextDue(start, size, interval, arrivals[..n], i, j) == NextDue(start, size, interval, arrivals, i, j)
  {
    hide FlushDue;
    forall m | i < m <= j
      ensures FlushDue(start, size, interval, arrivals[..n], i, m) == FlushDue(start, size, interval, arrivals, i, m)
    {
      SameBefore(start, size, interval, arrivals, n, i, m);
    }
  }

  lemma FlushesBefore<S>(start: real, size: int, interval: real, arrivals: seq<Arrival<S>>, n: nat, cuts: seq<nat>)
    requires n <= |arrivals| && Increasing(cuts, n) && Flushes(start, size, interval, arrivals[..n], cuts)
    ensures Flushes(start, size, interval, arrivals, cuts) && Stretches(arrivals, cuts) == Stretches(arrivals[..n], cuts)
  {
    hide Between, NextDue, FlushedAt;
    forall k | 0 <= k < |cuts| - 1
      ensures NextDue(start, size, interval, arrivals, cuts[k], cuts[k + 1])
      ensures Between(arrivals[..n], cuts[k], cuts[k + 1]) == Between(arrivals, cuts[k], cuts[k + 1])
    {
      assert cuts[k] < cuts[k + 1];
      if k + 1 < |cuts| - 1 { assert cuts[k + 1] < cuts[|cuts| - 1]; }
      QuietBefore(start, size, interval, arrivals, n, cuts[k], cuts[k + 1]);
      SameBefore(start, size, interval, arrivals, n, cuts[k], cuts[k + 1]);
    }
  }

  lemma OneMoreFlush<S>(start: real, size: int, interval: real, arrivals: seq<Arrival<S>>, cuts: seq<nat>, m: nat)
    requires Increasing(cuts, |arrivals|) && Flushes(start, size, interval, arrivals, cuts)
    requires cuts[|cuts| - 1] < m <= |arrivals| && NextDue(start, size, interval, arrivals, cuts[|cuts| - 1], m)
    ensures Increasing(cuts + [m], |arrivals|) && Flushes(start, size, interval, arrivals, cuts + [m])
    ensures Stretches(arrivals, cuts + [m]) == Stretches(arrivals, cuts) + [Between(arrivals, cuts[|cuts| - 1], m)]
  {
    hide Between, NextDue;
    var longer := cuts + [m];
    assert forall k :: 0 <= k < |cuts| ==> longer[k] == cuts[k];
  }

  /**
   * The eager driver writes exactly when enough samples or enough time have come since its last flush, and no
   * earlier: each write is the stretch of batches from one flush to the moment the next first becomes due.
   */
  lemma {:induction false} WritesWhenFirstDue<S>(start: real, size: int, interval: real, arrivals: seq<Arrival<S>>) returns (cuts: seq<nat>)
    ensures Increasing(cuts, |arrivals|) && Flushes(start, size, interval, arrivals, cuts)
    ensures var d, last := After(false, start, size, interval, arrivals), cuts[|cuts| - 1];
      && d.writes == Stretches(arrivals, cuts) && Quiet(start, size, interval, arrivals, last, |arrivals|)
      && d.buffer == Between(arrivals, last, |arrivals|) && d.lastFlush == FlushedAt(start, arrivals, last)
  {
    hide Flushes, NextDue, Between, FlushedAt, Quiet, Stretches;
    if arrivals == [] {
      cuts := [0];
      NothingYet<S>(start, size, interval);
    } else {
      var n := |arrivals| - 1;
      cuts := WritesWhenFirstDue(start, size, interval, arrivals[..n]);
      var last := cuts[|cuts| - 1];
      FlushesBefore(start, size, interval, arrivals, n, cuts);
      QuietBefore(start, size, interval, arrivals, n, last, n);
      SameBefore(start, size, interval, arrivals, n, last, n);
      BetweenGrows(arrivals, last);
      QuietGrows(start, size, interval, arrivals, last, n);
      if FlushDue(start, size, interval, arrivals, last, n + 1) {
        OneMoreFlush(start, size, interval, arrivals, cuts, n + 1);
        cuts := cuts + [n + 1];
        JustFlushed(start, size, interval, arrivals);
      }
    }
  }

  lemma QuietGrows<S>(start: real, size: int, interval: real, arrivals: seq<Arrival<S>>, i: nat, n: nat)
    requires i <= n < |arrivals| && Quiet(start, size, interval, arrivals, i, n)
    ensures if FlushDue(start, size, interval, arrivals, i, n + 1) then NextDue(start, size, interval, arrivals, i, n + 1)
            else Quiet(start, size, interval, arrivals, i, n + 1)
  {
    hide FlushDue;
  }

  lemma JustFlushed<S>(start: real, size: int, interval: real, arrivals: seq<Arrival<S>>)
    requires arrivals != []
    ensures var n := |arrivals|;
      && Between(arrivals, n, n) == [] && FlushedAt(start, arrivals, n) == arrivals[n - 1].now
      && Quiet(start, size, interval, arrivals, n, n)
  {
    assert arrivals[|arrivals|..|arrivals|] == [];
  }

  lemma NothingYet<S>(start: real, size: int, interval: real)
    ensures Between<S>([], 0, 0) == [] && FlushedAt<S>(start, [], 0) == start
    ensures Increasing([0], 0) && Flushes<S>(start, size, interval, [], [0]) && Stretches<S>([], [0]) == []
    ensures Quiet<S>(start, size, interval, [], 0, 0)
  {
  }

  /** The two drivers make the same writes, except that the eager one also makes empty ones. */
  lemma {:induction false} SameWritesButEmpty<S>(start: real, size: int, interval: real, arrivals: seq<Arrival<S>>)
    ensures var e, l := After(false, start, size, interval, arrivals), After(true, start, size, interval, arrivals);
            e.buffer == l.buffer && e.lastFlush == l.lastFlush && NonEmpty(e.writes) == l.writes
    ensures NonEmpty(Writes(false, start, size, interval, arrivals)) == Writes(true, start, size, interval, arrivals)
  {
    var e := After(false, start, size, interval, arrivals);
    if arrivals != [] {
      var before := After(false, start, size, interval, arrivals[..|arrivals| - 1]);
      SameWritesButEmpty(start, size, interval, arrivals[..|arrivals| - 1]);
      NonEmptySnoc(before.writes, before.buffer + arrivals[|arrivals| - 1].batch);
    }
    NonEmptySnoc(e.writes, e.buffer);
  }

  /** A blocking recording read to the end reaches the sink sample for sample, but for what still waits in the queue. */
  lemma PollToSink<S>(cap: nat, books: Books<seq<S>>, lazy: bool, start: real, size: int, interval: real, arrivals: seq<Arrival<S>>)
    requires Balanced(Block, cap, books) && Batches(arrivals) == books.delivered
    ensures Flatten(Writes(lazy, start, size, interval, arrivals)) + Flatten(books.queue) == Flatten(books.polled)
  {
    WritesConserve(lazy, start, size, interval, arrivals);
    FlattenAppend(books.delivered, books.queue);
  }

  /** The batches of `polled` at the places `kept`. */
  function Chosen<B>(polled: seq<B>, kept: seq<nat>): seq<B>
    requires forall i :: 0 <= i < |kept| ==> kept[i] < |polled|
  {
    seq(|kept|, i requires 0 <= i < |kept| => polled[kept[i]])
  }

  /**
   * Under every policy what reaches the sink, and then what is still queued, are whole batches that were polled,
   * in their order and none twice. A recorder that drops the oldest leaves the newest in the queue.
   */
  lemma SelectionToSink<S>(overflow: Overflow, cap: nat, books: Books<seq<S>>, lazy: bool, start: real, size: int, interval: real,
                           arrivals: seq<Arrival<S>>)
    requires Balanced(overflow, cap, books) && Batches(arrivals) == books.delivered
    ensures var kept, n := books.kept, |books.delivered|;
      && n <= |kept| && (forall i :: 0 <= i < |kept| ==> kept[i] < |books.polled|)
      && (forall i, j :: 0 <= i < j < |kept| ==> kept[i] < kept[j])
      && Flatten(Writes(lazy, start, size, interval, arrivals)) == Flatten(Chosen(books.polled, kept[..n]))
      && books.queue == Chosen(books.polled, kept[n..])
      && (overflow == Block ==> |kept| == |books.polled|)
      && (overflow == DropOldest ==> |books.queue| <= |books.polled| && books.queue == books.polled[|books.polled| - |books.queue|..])
  {
    WritesConserve(lazy, start, size, interval, arrivals);
    hide Writes, Flatten;
    PickedIsChosen(books.delivered, books.queue, books.polled, books.kept);
  }

  lemma PickedIsChosen<B>(a: seq<B>, b: seq<B>, polled: seq<B>, kept: seq<nat>)
    requires Picked(a + b, polled, kept)
    ensures |a| <= |kept| && Chosen(polled, kept[..|a|]) == a && Chosen(polled, kept[|a|..]) == b
  {
    forall i | 0 <= i < |a| ensures polled[kept[i]] == a[i] { assert (a + b)[i] == a[i]; }
    forall i | 0 <= i < |b| ensures polled[kept[|a| + i]] == b[i] { assert (a + b)[|a| + i] == b[i]; }
  }

  // ---------------------------------------------------------------- the drivers

  function Checked(size: int, interval: real): Result<(), PipeError>
  {
    if size < 1 then Err(BatchSizeTooSmall) else if interval <= 0.0 then Err(FlushIntervalNotPositive) else Ok(())
  }

  /** The async driver; `start` and the arrivals' `now` are its clock readings. */
  method Pipe<S>(sink: Sink<S>, start: real, size: int, interval: real, arrivals: seq<Arrival<S>>)
    returns (r: Result<nat, PipeError>)
    modifies sink
    ensures Checked(size, interval).Err? ==> r == Err(Checked(size, interval).error) && sink.writes == old(sink.writes)
    ensures Checked(size, interval).Ok? ==>
              && r == Ok(|Flatten(Batches(arrivals))|)
              && sink.writes == old(sink.writes) + Writes(true, start, size, interval, arrivals)
  {
    if size < 1 { return Err(BatchSizeTooSmall); }
    if interval <= 0.0 { return Err(FlushIntervalNotPositive); }
    var emitted, buffer, lastFlush := 0, [], start;
    for i := 0 to |arrivals|
      invariant var d := After(true, start, size, interval, arrivals[..i]);
                buffer == d.buffer && lastFlush == d.lastFlush && sink.writes == old(sink.writes) + d.writes
      invariant emitted + |buffer| == |Flatten(Batches(arrivals[..i]))|
    {
      FlattenStep(arrivals, i);
      buffer := buffer + arrivals[i].batch;
      var now := arrivals[i].now;
      if |buffer| >= size || now - lastFlush >= interval {
        if buffer != [] {
          sink.WriteMany(buffer);
          emitted := emitted + |buffer|;
          buffer := [];
        }
        lastFlush := now;
      }
    }
    assert arrivals[..|arrivals|] == arrivals;
    if buffer != [] {
      sink.WriteMany(buffer);
      emitted := emitted + |buffer|;
    }
    return Ok(emitted);
  }

  /** The sync driver, which hands over the buffer whenever a flush is due. */
  method SyncPipe<S>(sink: Sink<S>, start: real, size: int, interval: real, arrivals: seq<Arrival<S>>)
    returns (r: Result<nat, PipeError>)
    modifies sink
    ensures Checked(size, interval).Err? ==> r == Err(Checked(size, interval).error) && sink.writes == old(sink.writes)
    ensures Checked(size, interval).Ok? ==>
              && r == Ok(|Flatten(Batches(arrivals))|)
              && sink.writes == old(sink.writes) + Writes(false, start, size, interval, arrivals)
  {
    if size < 1 { return Err(BatchSizeTooSmall); }
    if interval <= 0.0 { return Err(FlushIntervalNotPositive); }
    var emitted, buffer, lastFlush := 0, [], start;
    for i := 0 to |arrivals|
      invariant var d := After(false, start, size, interval, arrivals[..i]);
                buffer == d.buffer && lastFlush == d.lastFlush && sink.writes == old(sink.writes) + d.writes
      invariant emitted + |buffer| == |Flatten(Batches(arrivals[..i]))|
    {
      FlattenStep(arrivals, i);
      buffer := buffer + arrivals[i].batch;
      var now := arrivals[i].now;
      if |buffer| >= size || now - lastFlush >= interval {
        sink.WriteMany(buffer);
        emitted := emitted + |buffer|;
        buffer := [];
        lastFlush := now;
      }
    }
    assert arrivals[..|arrivals|] == arrivals;
    if buffer != [] {
      sink.WriteMany(buffer);
      emitted := emitted + |buffer|;
    }
    return Ok(emitted);
  }

  lemma FlattenStep<S>(arrivals: seq<Arrival<S>>, i: nat)
    requires i < |arrivals|
    ensures arrivals[..i + 1][..i] == arrivals[..i]
    ensures Flatten(Batches(arrivals[..i + 1])) == Flatten(Batches(arrivals[..i])) + arrivals[i].batch
  {
    assert Batches(arrivals[..i + 1]) == Batches(arrivals[..i]) + [arrivals[i].batch];
    FlattenSnoc(Batches(arrivals[..i]), arrivals[i].batch);
  }
}
