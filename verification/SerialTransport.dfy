/** The chunked serial byte stream and its pushback buffer. */
module SerialTransport {
  import opened Bits
  import opened Wrappers

  /** What one wait on the port ends in: bytes (possibly none), an expired deadline, or a lost port. */
  datatype Event = Chunk(data: seq<Byte>) | Expire | Disconnect

  /** `Cancelled` is a read ended by a deadline around it, before its own. */
  datatype TransportError = NotOpen | TimedOut | Cancelled | ConnectionLost

  type Outcome = Result<seq<Byte>, TransportError>

  /** The bytes held back and what the port has yet to deliver. */
  datatype Port = Port(pushback: seq<Byte>, line: seq<Event>)

  /** Every byte still to come, however it is cut into chunks. */
  function Incoming(line: seq<Event>): seq<Byte>
  {
    if line == [] then []
    else if line[0].Chunk? then line[0].data + Incoming(line[1..])
    else Incoming(line[1..])
  }

  /** The flat byte sequence a reader sees. */
  function Stream(p: Port): seq<Byte>
  {
    p.pushback + Incoming(p.line)
  }

  /** Nothing interrupts a reader before the line falls silent. */
  predicate Steady(line: seq<Event>)
  {
    forall i :: 0 <= i < |line| ==> line[i].Chunk?
  }

  // ---------------------------------------------------------------- what a read does

  datatype Wait = Full | Expired | Gone

  datatype Held = Held(wait: Wait, buf: seq<Byte>, line: seq<Event>)

  /**
   * Collecting until `target` bytes are held, or until the wait ends. A port with nothing
   * left to deliver keeps the reader waiting until its deadline.
   */
  function Collect(buf: seq<Byte>, line: seq<Event>, target: Option<nat>): (h: Held)
    ensures h.wait == Full ==> target.Some? && |h.buf| >= target.value
    decreases |line|
  {
    if target.Some? && |buf| >= target.value then Held(Full, buf, line)
    else if line == [] then Held(Expired, buf, [])
    else
      match line[0]
      case Chunk(data) => Collect(buf + data, line[1..], target)
      case Expire => Held(Expired, buf, line[1..])
      case Disconnect => Held(Gone, buf, line[1..])
  }

  /**
   * A timeout of the read itself keeps what was collected. A lost port drops it, and so does a deadline
   * around the read, which when `enclosed` is the one that passes first.
   */
  function ExactRead(p: Port, n: int, enclosed: bool): (Outcome, Port)
  {
    if n <= 0 then (Ok([]), p)
    else
      var h := Collect(p.pushback, p.line, Some(n));
      match h.wait
      case Full => (Ok(h.buf[..n]), Port(h.buf[n..], h.line))
      case Expired => if enclosed then (Err(Cancelled), Port([], h.line)) else (Err(TimedOut), Port(h.buf, h.line))
      case Gone => (Err(ConnectionLost), Port([], h.line))
  }

  /** Everything up to an idle gap, or up to a positive cap. */
  function AvailableRead(p: Port, maxBytes: Option<int>): (Outcome, Port)
  {
    var cap := if maxBytes.Some? && maxBytes.value > 0 then Some(maxBytes.value) else None;
    var h := Collect(p.pushback, p.line, cap);
    if h.wait == Gone then (Err(ConnectionLost), Port([], h.line))
    else if cap.Some? && |h.buf| > cap.value then (Ok(h.buf[..cap.value]), Port(h.buf[cap.value..], h.line))
    else (Ok(h.buf), Port([], h.line))
  }

  class SerialTransport {
    var isOpen: bool
    var pushback: seq<Byte>
    var line: seq<Event>

    function State(): Port
      reads this
    {
      Port(pushback, line)
    }

    constructor (line: seq<Event>)
      ensures isOpen && State() == Port([], line)
    {
      this.isOpen, this.pushback, this.line := true, [], line;
    }

    /** One wait on the port. */
    method Receive() returns (e: Event)
      modifies this`line
      ensures old(line) == [] ==> e == Expire && line == []
      ensures old(line) != [] ==> e == old(line)[0] && line == old(line)[1..]
    {
      if line == [] {
        e := Expire;
      } else {
        e := line[0];
        line := line[1..];
      }
    }

    method ReadExact(n: int, enclosed: bool) returns (r: Outcome)
      modifies this`pushback, this`line
      ensures !isOpen ==> r == Err(NotOpen) && State() == old(State())
      ensures isOpen ==> (r, State()) == ExactRead(old(State()), n, enclosed)
    {
      if !isOpen { return Err(NotOpen); }
      if n <= 0 { return Ok([]); }
      var buf := pushback;
      pushback := [];
      while |buf| < n
        invariant isOpen == old(isOpen) && pushback == []
        invariant Collect(buf, line, Some(n)) == Collect(old(pushback), old(line), Some(n))
        decreases |line|
      {
        ghost var was := line;
        var e := Receive();
        match e {
          case Chunk(data) => buf := buf + data;
          case Expire =>
            if enclosed { return Err(Cancelled); }
            pushback := pushback + buf;
            assert pushback == buf;
            return Err(TimedOut);
          case Disconnect =>
            return Err(ConnectionLost);
        }
      }
      if |buf| > n {
        pushback := pushback + buf[n..];
      }
      assert pushback == buf[n..];
      return Ok(buf[..n]);
    }

    method ReadAvailable(maxBytes: Option<int>) returns (r: Outcome)
      modifies this`pushback, this`line
      ensures !isOpen ==> r == Err(NotOpen) && State() == old(State())
      ensures isOpen ==> (r, State()) == AvailableRead(old(State()), maxBytes)
    {
      if !isOpen { return Err(NotOpen); }
      var buf := pushback;
      pushback := [];
      var cap := if maxBytes.Some? && maxBytes.value > 0 then Some(maxBytes.value) else None;
      var idle := false;
      while !idle && (cap.None? || |buf| < cap.value)
        invariant isOpen == old(isOpen) && pushback == []
        invariant var h := Collect(old(pushback), old(line), cap);
                  if idle then h == Held(Expired, buf, line) else Collect(buf, line, cap) == h
        decreases !idle, |line|
      {
        var e := Receive();
        match e {
          case Chunk(data) => buf := buf + data;
          case Expire => idle := true;
          case Disconnect => return Err(ConnectionLost);
        }
      }
      if cap.Some? && |buf| > cap.value {
        pushback := pushback + buf[cap.value..];
        assert pushback == buf[cap.value..];
        return Ok(buf[..cap.value]);
      }
      return Ok(buf);
    }

    /** Discards what is held back and what the port has buffered so far. */
    method DrainInput(buffered: nat)
      requires buffered <= |line|
      modifies this`pushback, this`line
      ensures pushback == [] && line == if isOpen then old(line)[buffered..] else old(line)
    {
      pushback := [];
      if isOpen {
        line := line[buffered..];
      }
    }

    method Close()
      modifies this`isOpen, this`pushback
      ensures !isOpen && (old(isOpen) ==> pushback == []) && (!old(isOpen) ==> pushback == old(pushback))
    {
      if isOpen {
        isOpen := false;
        pushback := [];
      }
    }
  }

  // ---------------------------------------------------------------- conservation

  lemma {:induction false} CollectConserves(buf: seq<Byte>, line: seq<Event>, target: Option<nat>)
    ensures var h := Collect(buf, line, target); h.buf + Incoming(h.line) == buf + Incoming(line)
    decreases |line|
  {
    if target.Some? && |buf| >= target.value {
    } else if line != [] && line[0].Chunk? {
      CollectConserves(buf + line[0].data, line[1..], target);
      assert buf + line[0].data + Incoming(line[1..]) == buf + (line[0].data + Incoming(line[1..]));
    }
  }

  lemma {:induction false} CollectEnds(buf: seq<Byte>, line: seq<Event>, target: Option<nat>)
    ensures var h := Collect(buf, line, target);
            && (Steady(line) ==> Steady(h.line) && h.wait != Gone)
            && (Steady(line) && h.wait == Expired ==> h.line == [])
            && (h.wait == Expired && target.Some? ==> |h.buf| < target.value)
    decreases |line|
  {
    hide Incoming;
    if target.Some? && |buf| >= target.value {
    } else if line != [] && line[0].Chunk? {
      CollectEnds(buf + line[0].data, line[1..], target);
    }
  }

  /**
   * A read neither loses, duplicates nor reorders a byte, unless the port is lost or a deadline around it
   * passes: what it returns and what is left to read are what there was to read.
   */
  lemma ReadExactConserves(p: Port, n: int, enclosed: bool)
    ensures var (r, q) := ExactRead(p, n, enclosed);
            && (r.Ok? ==> r.value + Stream(q) == Stream(p) && |r.value| == if n <= 0 then 0 else n)
            && (r == Err(TimedOut) ==> Stream(q) == Stream(p) && |q.pushback| < n && !enclosed)
            && (r == Err(Cancelled) ==> q.pushback == [] && enclosed)
            && (r == Err(ConnectionLost) ==> q.pushback == [])
            && (r.Err? ==> r.error in {TimedOut, Cancelled, ConnectionLost})
            && (Steady(p.line) ==> Steady(q.line))
  {
    CollectConserves(p.pushback, p.line, Some(if n <= 0 then 0 else n));
    CollectEnds(p.pushback, p.line, Some(if n <= 0 then 0 else n));
    var h := Collect(p.pushback, p.line, Some(if n <= 0 then 0 else n));
    hide Collect, Incoming;
    if n > 0 && h.wait == Full {
      assert h.buf[..n] + (h.buf[n..] + Incoming(h.line)) == h.buf + Incoming(h.line);
    }
  }

  /**
   * On a steady line a read depends only on the flat stream, not on the chunks or the pushback. One that is
   * cut off by a deadline around it loses all there was.
   */
  lemma ReadExactFlat(p: Port, n: nat, enclosed: bool)
    requires Steady(p.line)
    ensures var (r, q) := ExactRead(p, n, enclosed);
            if n <= |Stream(p)| then r == Ok(Stream(p)[..n]) && Stream(q) == Stream(p)[n..]
            else if enclosed then r == Err(Cancelled) && Stream(q) == []
            else r == Err(TimedOut) && Stream(q) == Stream(p)
  {
    ReadExactConserves(p, n, enclosed);
    CollectConserves(p.pushback, p.line, Some(n));
    CollectEnds(p.pushback, p.line, Some(n));
    var (r, q) := ExactRead(p, n, enclosed);
    if r.Ok? {
      assert Stream(p)[..n] == r.value && Stream(p)[n..] == Stream(q);
    }
  }

  lemma ReadAvailableConserves(p: Port, maxBytes: Option<int>)
    ensures var (r, q) := AvailableRead(p, maxBytes);
            && (r.Ok? ==> r.value + Stream(q) == Stream(p))
            && (r.Ok? && maxBytes.Some? && maxBytes.value > 0 ==> |r.value| <= maxBytes.value)
            && (r.Err? ==> r.error == ConnectionLost)
            && (Steady(p.line) ==> Steady(q.line) && r.Ok?)
  {
    var cap := if maxBytes.Some? && maxBytes.value > 0 then Some(maxBytes.value) else None;
    CollectConserves(p.pushback, p.line, cap);
    CollectEnds(p.pushback, p.line, cap);
    var h := Collect(p.pushback, p.line, cap);
    if cap.Some? && |h.buf| > cap.value {
      var n: nat := cap.value;
      assert h.buf[..n] + (h.buf[n..] + Incoming(h.line)) == h.buf + Incoming(h.line);
    }
  }

  // ---------------------------------------------------------------- whole runs

  datatype Call = Exact(n: int, enclosed: bool) | Available(maxBytes: Option<int>)

  function Answer(p: Port, c: Call): (Outcome, Port)
  {
    match c
    case Exact(n, enclosed) => ExactRead(p, n, enclosed)
    case Available(m) => AvailableRead(p, m)
  }

  /** The answers of a run of reads, which ends where the port is lost. */
  function Answers(p: Port, calls: seq<Call>): (seq<Outcome>, Port)
    decreases |calls|
  {
    if calls == [] then ([], p)
    else
      var (r, q) := Answer(p, calls[0]);
      if r == Err(ConnectionLost) then ([r], q)
      else
        var (rest, end) := Answers(q, calls[1..]);
        ([r] + rest, end)
  }

  function Delivered(answers: seq<Outcome>): seq<Byte>
  {
    if answers == [] then []
    else (if answers[0].Ok? then answers[0].value else []) + Delivered(answers[1..])
  }

  /** No read lost its port or was cut off by a deadline around it. */
  predicate Undisturbed(answers: seq<Outcome>)
  {
    Err(ConnectionLost) !in answers && Err(Cancelled) !in answers
  }

  /** Over any run of reads: delivered bytes, then pushback, then bytes to come are the bytes there were. */
  lemma {:induction false} RunConserves(p: Port, calls: seq<Call>)
    ensures var (answers, end) := Answers(p, calls);
            Undisturbed(answers) ==> Delivered(answers) + Stream(end) == Stream(p)
    decreases |calls|
  {
    if calls != [] {
      var (r, q) := Answer(p, calls[0]);
      AnswerConserves(p, calls[0]);
      hide Answer, Stream;
      if r != Err(ConnectionLost) {
        RunConserves(q, calls[1..]);
        var (rest, end) := Answers(q, calls[1..]);
        assert ([r] + rest)[1..] == rest;
        if Undisturbed([r] + rest) {
          assert Undisturbed(rest) && r in [r] + rest;
          var head := if r.Ok? then r.value else [];
          assert head + Delivered(rest) + Stream(end) == head + (Delivered(rest) + Stream(end));
        }
      }
    }
  }

  lemma AnswerConserves(p: Port, c: Call)
    ensures var (r, q) := Answer(p, c);
            r != Err(ConnectionLost) && r != Err(Cancelled) ==> (if r.Ok? then r.value else []) + Stream(q) == Stream(p)
  {
    match c {
      case Exact(n, enclosed) => ReadExactConserves(p, n, enclosed);
      case Available(m) => ReadAvailableConserves(p, m);
    }
  }

  /** On a steady line a read of whatever is available takes all there is, or as much as a positive cap allows. */
  lemma ReadAvailableFlat(p: Port, maxBytes: Option<int>)
    requires Steady(p.line)
    ensures var (r, q) := AvailableRead(p, maxBytes);
            var s := Stream(p);
            var n := if maxBytes.Some? && 0 < maxBytes.value < |s| then maxBytes.value else |s|;
            r == Ok(s[..n]) && Stream(q) == s[n..] && Steady(q.line)
  {
    var cap := if maxBytes.Some? && maxBytes.value > 0 then Some(maxBytes.value) else None;
    ReadAvailableConserves(p, maxBytes);
    CollectConserves(p.pushback, p.line, cap);
    CollectEnds(p.pushback, p.line, cap);
    var h := Collect(p.pushback, p.line, cap);
    var (r, q) := AvailableRead(p, maxBytes);
    hide Collect, Incoming, AvailableRead;
    var s, k := Stream(p), |r.value|;
    assert s[..k] == r.value && s[k..] == Stream(q);
  }

  /** One read of either kind is told by the flat stream. */
  lemma AnswerFlat(p: Port, q: Port, c: Call)
    requires Steady(p.line) && Steady(q.line) && Stream(p) == Stream(q)
    ensures var (a, b) := (Answer(p, c), Answer(q, c));
            a.0 == b.0 && Stream(a.1) == Stream(b.1) && Steady(a.1.line) && Steady(b.1.line) && a.0 != Err(ConnectionLost)
  {
    match c {
      case Exact(n, enclosed) =>
        if n > 0 {
          ReadExactFlat(p, n, enclosed);
          ReadExactFlat(q, n, enclosed);
          ReadExactConserves(p, n, enclosed);
          ReadExactConserves(q, n, enclosed);
        }
      case Available(m) =>
        ReadAvailableFlat(p, m);
        ReadAvailableFlat(q, m);
    }
  }

  /** Two steady ports carrying the same bytes, chunked and buffered differently, answer every run of reads alike. */
  lemma {:induction false} ChunksDoNotMatter(p: Port, q: Port, calls: seq<Call>)
    requires Steady(p.line) && Steady(q.line) && Stream(p) == Stream(q)
    ensures Answers(p, calls).0 == Answers(q, calls).0
    ensures Stream(Answers(p, calls).1) == Stream(Answers(q, calls).1)
    decreases |calls|
  {
    hide Answer, Stream, Steady;
    if calls != [] {
      AnswerFlat(p, q, calls[0]);
      ChunksDoNotMatter(Answer(p, calls[0]).1, Answer(q, calls[0]).1, calls[1..]);
    }
  }
}
