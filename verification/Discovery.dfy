/** Scanning ports for controllers: one row per combination, unless an error escapes. */
module Discovery {
  import opened Wrappers
  import opened Sequences
  import opened Session

  /** One thing to probe for: a protocol, and the baud rates its profile supports if it says so. */
  datatype Plan = Plan(protocol: Kind, supported: Option<set<nat>>)

  /** One transport to open. */
  datatype Stop = Stop(port: string, baud: nat, plan: Plan)

  datatype Combo = Combo(stop: Stop, address: int)

  /** What a scan sweeps; `prune` when the baud rates are the default ones. */
  datatype Sweep = Sweep(ports: seq<string>, bauds: seq<nat>, plans: seq<Plan>, addresses: seq<int>, prune: bool)

  datatype Info = Info(partNumber: string, hardwareId: Option<int>)

  datatype ScanError = PortDead | ConnectionFailed | OpenFailed | AddressOutOfRange | TimedOut | NotAnswered(why: Error) | Silent

  datatype Row = Row(combo: Combo, ok: bool, info: Option<Info>, error: Option<ScanError>)

  /** What the operating system makes of an open: it works, the port is missing or busy, or something else fails. */
  datatype Condition = Free | Unavailable | Faulty

  /** How opening a transport ends for the scan; a foreign error is none of the library's. */
  datatype Opening = Opened | NoConnection | OtherError | Foreign

  datatype Answer = Identified(info: Info) | NoReply | Rejected(why: Error) | Broken

  /** The world: the condition met by the n-th open, whether its close works, and the answer to the n-th probe. */
  datatype World = World(ports: nat -> Condition, closes: nat -> bool, answers: nat -> Answer)

  /** One open, and whether its close, if there was one, raised nothing. */
  datatype Attempt = Attempt(stop: Stop, opening: Opening, closed: bool)

  datatype Probe = Probe(combo: Combo, answer: Answer)

  // ---------------------------------------------------------------- the shape of a scan

  predicate Supported(combo: Combo)
  {
    Reached(combo.stop)
  }

  /** A profile that names its baud rates is only probed at those. */
  predicate Reached(stop: Stop)
  {
    stop.plan.supported.None? || stop.baud in stop.plan.supported.value
  }

  function AddressCombos(w: Sweep, stop: Stop): seq<Combo>
  {
    seq(|w.addresses|, a requires 0 <= a < |w.addresses| => Combo(stop, w.addresses[a]))
  }

  function PlanStops(w: Sweep, port: string, baud: nat): seq<Stop>
  {
    seq(|w.plans|, k requires 0 <= k < |w.plans| => Stop(port, baud, w.plans[k]))
  }

  function BaudStops(w: Sweep, port: string): seq<seq<Stop>>
  {
    seq(|w.bauds|, b requires 0 <= b < |w.bauds| => PlanStops(w, port, w.bauds[b]))
  }

  function PortStops(w: Sweep): seq<seq<Stop>>
  {
    seq(|w.ports|, p requires 0 <= p < |w.ports| => Flatten(BaudStops(w, w.ports[p])))
  }

  /** All transports of a scan, ports outermost. */
  function AllStops(w: Sweep): seq<Stop>
  {
    Flatten(PortStops(w))
  }

  function Blocks(w: Sweep, stops: seq<Stop>): seq<seq<Combo>>
  {
    seq(|stops|, i requires 0 <= i < |stops| => AddressCombos(w, stops[i]))
  }

  /** The cartesian product of ports, baud rates, plans and addresses. */
  function AllCombos(w: Sweep): seq<Combo>
  {
    Flatten(Blocks(w, AllStops(w)))
  }

  /** All combinations, or those the profiles support when pruning. */
  function Kept(w: Sweep, combos: seq<Combo>): seq<Combo>
  {
    if w.prune then Filter(Supported, combos) else combos
  }

  lemma KeptSnoc(w: Sweep, stops: seq<Stop>, stop: Stop)
    ensures Kept(w, Flatten(Blocks(w, stops + [stop])))
         == Kept(w, Flatten(Blocks(w, stops))) + Kept(w, AddressCombos(w, stop))
  {
    assert Blocks(w, stops + [stop]) == Blocks(w, stops) + [AddressCombos(w, stop)];
    FlattenSnoc(Blocks(w, stops), AddressCombos(w, stop));
    FilterAppend(Supported, Flatten(Blocks(w, stops)), AddressCombos(w, stop));
  }

  /** Pruning keeps or drops the addresses of a plan together. */
  lemma KeptAddresses(w: Sweep, stop: Stop)
    ensures Kept(w, AddressCombos(w, stop)) == if w.prune && !Reached(stop) then [] else AddressCombos(w, stop)
  {
    FilterAll(Supported, AddressCombos(w, stop), Reached(stop));
  }

  /** Pruning drops exactly the combinations whose profile names its baud rates and not this one. */
  lemma {:induction false} KeptIff(w: Sweep, combos: seq<Combo>, c: Combo)
    ensures c in Kept(w, combos)
       <==> c in combos && (w.prune && c.stop.plan.supported.Some? ==> c.stop.baud in c.stop.plan.supported.value)
  {
    if combos != [] {
      var front := combos[..|combos| - 1];
      KeptIff(w, front, c);
      assert combos == front + [combos[|combos| - 1]];
    }
  }

  lemma StopOrder(w: Sweep, p: nat, b: nat, k: nat)
    requires p < |w.ports| && b < |w.bauds| && k < |w.plans|
    ensures var size := Total(|w.bauds|, |w.plans|);
      var at := Place(p, size, Place(b, |w.plans|, k));
      && at < |AllStops(w)| == Total(|w.ports|, size)
      && AllStops(w)[at] == Stop(w.ports[p], w.bauds[b], w.plans[k])
  {
    hide Flatten, Total, Place;
    forall q | 0 <= q < |w.ports| ensures |Flatten(BaudStops(w, w.ports[q]))| == Total(|w.bauds|, |w.plans|) {
      FlattenAt(BaudStops(w, w.ports[q]), |w.plans|, b, k);
    }
    FlattenAt(BaudStops(w, w.ports[p]), |w.plans|, b, k);
    FlattenAt(PortStops(w), Total(|w.bauds|, |w.plans|), p, Place(b, |w.plans|, k));
  }

  /** Every combination of the product stands at its place in the order port, baud rate, plan, address. */
  lemma ProductOrder(w: Sweep, p: nat, b: nat, k: nat, a: nat)
    requires p < |w.ports| && b < |w.bauds| && k < |w.plans| && a < |w.addresses|
    ensures var size := Total(|w.bauds|, |w.plans|);
      var at := Place(Place(p, size, Place(b, |w.plans|, k)), |w.addresses|, a);
      && at < |AllCombos(w)| == Total(Total(|w.ports|, size), |w.addresses|)
      && AllCombos(w)[at] == Combo(Stop(w.ports[p], w.bauds[b], w.plans[k]), w.addresses[a])
  {
    hide Flatten, PortStops, Total, Place;
    StopOrder(w, p, b, k);
    FlattenAt(Blocks(w, AllStops(w)), |w.addresses|, Place(p, Total(|w.bauds|, |w.plans|), Place(b, |w.plans|, k)), a);
  }

  // ---------------------------------------------------------------- one open, one address

  /**
   * A Standard Bus transport turns every failure to open into an error of the library, a lost connection
   * if the port is missing or busy. A Modbus transport lets the error of its port through.
   */
  function OpeningOf(k: Kind, c: Condition): Opening
  {
    if c.Free? then Opened
    else if k.ModbusRtu? then Foreign
    else if c.Unavailable? then NoConnection
    else OtherError
  }

  /** Closing raises nothing on Standard Bus; on Modbus the port's error comes through. */
  function ClosedWell(k: Kind, works: bool): bool
  {
    works || !k.ModbusRtu?
  }

  function AddressRange(k: Kind): Option<(int, int)>
  {
    match k
    case StdBus => Some((1, 16))
    case ModbusRtu => Some((1, 247))
    case Auto => None
  }

  predicate InRange(combo: Combo)
  {
    var range := AddressRange(combo.stop.plan.protocol);
    range.None? || range.value.0 <= combo.address <= range.value.1
  }

  function Failed(combo: Combo, why: ScanError): Row
  {
    Row(combo, false, None, Some(why))
  }

  /** The row of one probe; None when an error escapes and ends the scan. */
  function ProbeAddress(combo: Combo, answer: Answer): Option<Row>
  {
    if !InRange(combo) then Some(Failed(combo, AddressOutOfRange))
    else if combo.stop.plan.protocol.Auto? then None
    else
      match answer
      case Broken => None
      case NoReply => Some(Failed(combo, TimedOut))
      case Rejected(why) => Some(Failed(combo, NotAnswered(why)))
      case Identified(info) =>
        if info.partNumber == "" && info.hardwareId.None? then Some(Failed(combo, Silent))
        else Some(Row(combo, true, Some(info), None))
  }

  /** A probe fails the scan if it is of an Auto plan, or of an address in range and broken. */
  predicate ProbeEscapes(p: Probe)
  {
    p.combo.stop.plan.protocol.Auto? || (InRange(p.combo) && p.answer.Broken?)
  }

  /** An open fails the scan if its error is foreign, or that of its close is. */
  predicate OpenEscapes(a: Attempt)
  {
    a.opening.Foreign? || !a.closed
  }

  /** A row is good, has device information and has no error, all three together or none. */
  predicate Consistent(r: Row)
  {
    (r.ok <==> r.info.Some?) && (r.ok <==> r.error.None?)
  }

  /** The addresses of a protocol. */
  predicate Exists(combo: Combo)
  {
    match combo.stop.plan.protocol
    case StdBus => 1 <= combo.address <= 16
    case ModbusRtu => 1 <= combo.address <= 247
    case Auto => true
  }

  /** A device told its part number or its hardware id. */
  predicate Identifies(answer: Answer)
  {
    answer.Identified? && (answer.info.partNumber != "" || answer.info.hardwareId.Some?)
  }

  /**
   * What the row of a probe says: there is a device, and which, exactly if the address exists and one has
   * identified itself; otherwise what came instead.
   */
  predicate Tells(p: Probe, r: Row)
  {
    && r.combo == p.combo
    && (r.ok <==> Exists(p.combo) && Identifies(p.answer))
    && (r.ok ==> r.info == Some(p.answer.info) && r.error == None)
    && (!r.ok ==> r.info == None)
    && (!Exists(p.combo) ==> r.error == Some(AddressOutOfRange))
    && (Exists(p.combo) && p.answer.NoReply? ==> r.error == Some(TimedOut))
    && (Exists(p.combo) && p.answer.Rejected? ==> r.error == Some(NotAnswered(p.answer.why)))
    && (Exists(p.combo) && p.answer.Identified? && !Identifies(p.answer) ==> r.error == Some(Silent))
  }

  lemma ProbesAreConsistent(combo: Combo, answer: Answer)
    ensures var r := ProbeAddress(combo, answer);
      && (r.None? <==> ProbeEscapes(Probe(combo, answer)))
      && (r.None? <==> combo.stop.plan.protocol.Auto? || (Exists(combo) && answer.Broken?))
      && (r.Some? ==> Consistent(r.value) && Tells(Probe(combo, answer), r.value))
  {
  }

  function Combos(rows: seq<Row>): seq<Combo>
  {
    seq(|rows|, i requires 0 <= i < |rows| => rows[i].combo)
  }

  /** Every row is consistent. */
  predicate AllConsistent(rows: seq<Row>)
  {
    forall i :: 0 <= i < |rows| ==> Consistent(rows[i])
  }

  function AllFailed(combos: seq<Combo>, why: ScanError): (rows: seq<Row>)
    ensures Combos(rows) == combos && AllConsistent(rows)
  {
    seq(|combos|, i requires 0 <= i < |combos| => Failed(combos[i], why))
  }

  // ---------------------------------------------------------------- what a scan does

  /** The rows so far, the ports found dead, the opens and the probes in order, and whether an error has escaped. */
  datatype Progress = Progress(rows: seq<Row>, dead: set<string>, log: seq<Attempt>, asked: seq<Probe>, escaped: bool)

  const NOTHING := Progress([], {}, [], [], false)

  /** What the probes over one open transport give, until an error escapes. */
  datatype Asking = Asking(rows: seq<Row>, asked: seq<Probe>, escaped: bool)

  /** Probing addresses in turn, when `before` probes have been made already. */
  function Asked(world: World, combos: seq<Combo>, before: nat): Asking
  {
    if combos == [] then Asking([], [], false)
    else
      var n := |combos| - 1;
      var front := Asked(world, combos[..n], before);
      if front.escaped then front
      else
        var p := Probe(combos[n], world.answers(before + n));
        var row := ProbeAddress(p.combo, p.answer);
        if row.None? then Asking(front.rows, front.asked + [p], true)
        else Asking(front.rows + [row.value], front.asked + [p], false)
  }

  /** One transport of the scan; nothing happens once an error has escaped. */
  function Visited(world: World, w: Sweep, s: Progress, stop: Stop): Progress
  {
    var combos := AddressCombos(w, stop);
    if s.escaped || (w.prune && !Reached(stop)) then s
    else if stop.port in s.dead then s.(rows := s.rows + AllFailed(combos, PortDead))
    else
      var opening := OpeningOf(stop.plan.protocol, world.ports(|s.log|));
      match opening
      case NoConnection =>
        s.(rows := s.rows + AllFailed(combos, ConnectionFailed), dead := s.dead + {stop.port},
           log := s.log + [Attempt(stop, opening, true)])
      case OtherError =>
        s.(rows := s.rows + AllFailed(combos, OpenFailed), log := s.log + [Attempt(stop, opening, true)])
      case Foreign =>
        s.(log := s.log + [Attempt(stop, opening, true)], escaped := true)
      case Opened =>
        var asking := Asked(world, combos, |s.asked|);
        var closed := ClosedWell(stop.plan.protocol, world.closes(|s.log|));
        s.(rows := if asking.escaped || !closed then s.rows else s.rows + asking.rows,
           log := s.log + [Attempt(stop, opening, closed)],
           asked := s.asked + asking.asked, escaped := asking.escaped || !closed)
  }

  function AllVisited(world: World, w: Sweep, s: Progress, stops: seq<Stop>): Progress
  {
    if stops == [] then s
    else Visited(world, w, AllVisited(world, w, s, stops[..|stops| - 1]), stops[|stops| - 1])
  }

  /** A whole scan. */
  function Scanned(world: World, w: Sweep): Progress
  {
    AllVisited(world, w, NOTHING, AllStops(w))
  }

  lemma {:induction false} VisitedAppend(world: World, w: Sweep, s: Progress, a: seq<Stop>, b: seq<Stop>)
    ensures AllVisited(world, w, s, a + b) == AllVisited(world, w, AllVisited(world, w, s, a), b)
    decreases |b|
  {
    hide Visited;
    if b == [] {
      assert a + b == a;
    } else {
      var rest := b[..|b| - 1];
      assert (a + b)[..|a + b| - 1] == a + rest;
      VisitedAppend(world, w, s, a, rest);
    }
  }

  lemma VisitedSnoc(world: World, w: Sweep, s: Progress, stops: seq<Stop>, stop: Stop)
    ensures AllVisited(world, w, s, stops + [stop]) == Visited(world, w, AllVisited(world, w, s, stops), stop)
  {
    hide Visited;
    assert (stops + [stop])[..|stops|] == stops;
  }

  lemma {:induction false} EscapedStays(world: World, w: Sweep, s: Progress, stops: seq<Stop>)
    requires s.escaped
    ensures AllVisited(world, w, s, stops) == s
  {
    if stops != [] { EscapedStays(world, w, s, stops[..|stops| - 1]); }
  }

  // ---------------------------------------------------------------- when a scan returns its rows

  predicate NoProbeEscapes(asked: seq<Probe>)
  {
    forall i :: 0 <= i < |asked| ==> !ProbeEscapes(asked[i])
  }

  predicate NoOpenEscapes(log: seq<Attempt>)
  {
    forall i :: 0 <= i < |log| ==> !OpenEscapes(log[i])
  }

  /** No open and no probe has failed the scan. */
  predicate Clean(s: Progress)
  {
    NoOpenEscapes(s.log) && NoProbeEscapes(s.asked)
  }

  lemma MoreProbes(a: seq<Probe>, b: seq<Probe>)
    ensures NoProbeEscapes(a + b) <==> NoProbeEscapes(a) && NoProbeEscapes(b)
    ensures a + [] == a
  {
    if NoProbeEscapes(a + b) {
      forall i | 0 <= i < |a| ensures !ProbeEscapes(a[i]) { assert (a + b)[i] == a[i]; }
      forall i | 0 <= i < |b| ensures !ProbeEscapes(b[i]) { assert (a + b)[|a| + i] == b[i]; }
    }
  }

  lemma OneMoreOpen(log: seq<Attempt>, a: Attempt)
    ensures NoOpenEscapes(log + [a]) <==> NoOpenEscapes(log) && !OpenEscapes(a)
  {
    var longer := log + [a];
    if NoOpenEscapes(longer) {
      assert !OpenEscapes(longer[|log|]);
      forall i | 0 <= i < |log| ensures !OpenEscapes(log[i]) { assert longer[i] == log[i]; }
    }
  }

  lemma {:induction false} AskedClean(world: World, combos: seq<Combo>, before: nat)
    ensures var a := Asked(world, combos, before);
      && (!a.escaped <==> NoProbeEscapes(a.asked))
      && (!a.escaped ==> |a.asked| == |combos| && Combos(a.rows) == combos && AllConsistent(a.rows))
  {
    hide ProbeAddress, ProbeEscapes, NoProbeEscapes, Combos, AllConsistent, Consistent;
    if combos == [] {
      NoProbes();
      NoRows();
    } else {
      var n := |combos| - 1;
      var p := Probe(combos[n], world.answers(before + n));
      var front := Asked(world, combos[..n], before);
      AskedClean(world, combos[..n], before);
      ProbesAreConsistent(p.combo, p.answer);
      MoreProbes(front.asked, [p]);
      OneProbe(p);
      if !Asked(world, combos, before).escaped {
        OneMoreRow(front.rows, ProbeAddress(p.combo, p.answer).value);
        assert combos == combos[..n] + [combos[n]];
      }
    }
  }

  lemma OneMoreRow(rows: seq<Row>, r: Row)
    requires AllConsistent(rows) && Consistent(r)
    ensures AllConsistent(rows + [r]) && Combos(rows + [r]) == Combos(rows) + [r.combo]
  {
  }

  lemma NoProbes()
    ensures NoProbeEscapes([]) && NoOpenEscapes([])
  {
  }

  lemma OneProbe(p: Probe)
    ensures NoProbeEscapes([p]) <==> !ProbeEscapes(p)
  {
    if NoProbeEscapes([p]) { assert !ProbeEscapes([p][0]); }
  }

  lemma VisitedClean(world: World, w: Sweep, s: Progress, stop: Stop)
    requires !s.escaped <==> Clean(s)
    ensures !Visited(world, w, s, stop).escaped <==> Clean(Visited(world, w, s, stop))
  {
    hide Asked, AddressCombos, NoProbeEscapes, NoOpenEscapes, Combos, AllConsistent, Consistent;
    var t, asking := Visited(world, w, s, stop), Asked(world, AddressCombos(w, stop), |s.asked|);
    AskedClean(world, AddressCombos(w, stop), |s.asked|);
    MoreProbes(s.asked, asking.asked);
    if t.log != s.log { OneMoreOpen(s.log, t.log[|s.log|]); }
  }

  lemma {:induction false} AllVisitedClean(world: World, w: Sweep, s: Progress, stops: seq<Stop>)
    requires !s.escaped <==> Clean(s)
    ensures !AllVisited(world, w, s, stops).escaped <==> Clean(AllVisited(world, w, s, stops))
  {
    hide Clean, Visited;
    if stops != [] {
      AllVisitedClean(world, w, s, stops[..|stops| - 1]);
      VisitedClean(world, w, AllVisited(world, w, s, stops[..|stops| - 1]), stops[|stops| - 1]);
    }
  }

  /** A scan returns its rows if and only if none of the opens it makes escapes and none of its probes does. */
  lemma FinishesIff(world: World, w: Sweep)
    ensures !Scanned(world, w).escaped <==> Clean(Scanned(world, w))
  {
    NoProbes();
    AllVisitedClean(world, w, NOTHING, AllStops(w));
  }

  // ---------------------------------------------------------------- the rows it returns

  /** `t` has the rows of `s` and then one consistent row for each of the given combinations. */
  predicate Extends(s: Progress, t: Progress, combos: seq<Combo>)
  {
    AllConsistent(t.rows) && Combos(t.rows) == Combos(s.rows) + combos
  }

  lemma ExtendsBy(s: Progress, more: seq<Row>, t: Progress)
    requires AllConsistent(s.rows) && AllConsistent(more) && t.rows == s.rows + more
    ensures Extends(s, t, Combos(more))
  {
  }

  lemma NoRows()
    ensures Combos([]) == [] && AllConsistent([])
  {
  }

  lemma VisitedShape(world: World, w: Sweep, s: Progress, stop: Stop)
    requires AllConsistent(s.rows) && !Visited(world, w, s, stop).escaped
    ensures !s.escaped && Extends(s, Visited(world, w, s, stop), Kept(w, AddressCombos(w, stop)))
  {
    hide Combos, AllConsistent, AddressCombos, Kept, Asked, Extends, Reached, ProbeEscapes;
    var combos, t := AddressCombos(w, stop), Visited(world, w, s, stop);
    KeptAddresses(w, stop);
    NoRows();
    AskedClean(world, combos, |s.asked|);
    assert s.rows + [] == s.rows;
    if w.prune && !Reached(stop) {
      ExtendsBy(s, [], t);
    } else if stop.port in s.dead {
      ExtendsBy(s, AllFailed(combos, PortDead), t);
    } else {
      match OpeningOf(stop.plan.protocol, world.ports(|s.log|))
      case NoConnection => ExtendsBy(s, AllFailed(combos, ConnectionFailed), t);
      case OtherError => ExtendsBy(s, AllFailed(combos, OpenFailed), t);
      case Foreign =>
      case Opened => ExtendsBy(s, Asked(world, combos, |s.asked|).rows, t);
    }
  }

  lemma {:induction false} AllVisitedShape(world: World, w: Sweep, stops: seq<Stop>)
    requires !AllVisited(world, w, NOTHING, stops).escaped
    ensures var t := AllVisited(world, w, NOTHING, stops);
            Combos(t.rows) == Kept(w, Flatten(Blocks(w, stops))) && AllConsistent(t.rows)
  {
    if stops == [] {
      NoRows();
    } else {
      var front, stop := stops[..|stops| - 1], stops[|stops| - 1];
      var s := AllVisited(world, w, NOTHING, front);
      assert !s.escaped by { hide AddressCombos; }
      AllVisitedShape(world, w, front);
      hide Visited, Kept, Blocks, Combos, AllConsistent, AddressCombos, Flatten;
      VisitedShape(world, w, s, stop);
      assert stops == front + [stop];
      KeptSnoc(w, front, stop);
    }
  }

  /**
   * A scan that no error escapes from has exactly the rows of the product of what it sweeps, in order, minus
   * what is pruned, each of them consistent, for whatever opens fail.
   */
  lemma ScanShape(world: World, w: Sweep)
    requires Clean(Scanned(world, w))
    ensures var rows := Scanned(world, w).rows;
            Combos(rows) == Kept(w, AllCombos(w)) && AllConsistent(rows)
  {
    hide Clean;
    FinishesIff(world, w);
    AllVisitedShape(world, w, AllStops(w));
  }

  // ---------------------------------------------------------------- what the rows tell

  /** The row of a probe, and not of a port that could not be opened. */
  predicate WasProbed(r: Row)
  {
    r.error !in {Some(PortDead), Some(ConnectionFailed), Some(OpenFailed)}
  }

  /** Row by row, what some probes told. */
  predicate AllTold(asked: seq<Probe>, rows: seq<Row>)
  {
    |asked| == |rows| && forall i :: 0 <= i < |rows| ==> Tells(asked[i], rows[i]) && WasProbed(rows[i])
  }

  /** From probe number `before` on, the answers are those of the world. */
  predicate Answered(world: World, asked: seq<Probe>, before: nat)
  {
    forall i :: 0 <= i < |asked| ==> asked[i].answer == world.answers(before + i)
  }

  /** How an open ended, by its protocol and by what the port was like. */
  predicate MetAs(a: Attempt, c: Condition, works: bool)
  {
    match a.stop.plan.protocol
    case ModbusRtu => a.opening == (if c.Free? then Opened else Foreign) && (!a.closed <==> c.Free? && !works)
    case _ => a.closed && a.opening == (match c case Free => Opened case Unavailable => NoConnection case Faulty => OtherError)
  }

  predicate AllMet(world: World, log: seq<Attempt>)
  {
    forall k :: 0 <= k < |log| ==> MetAs(log[k], world.ports(k), world.closes(k))
  }

  predicate Ended(log: seq<Attempt>, stop: Stop, opening: Opening)
  {
    exists k :: 0 <= k < |log| && log[k].stop == stop && log[k].opening == opening
  }

  /** A row of a failed open has its reason on record. */
  predicate Explained(log: seq<Attempt>, r: Row)
  {
    && (r.error == Some(PortDead) ==> Struck(log, r.combo.stop.port))
    && (r.error == Some(ConnectionFailed) ==> Ended(log, r.combo.stop, NoConnection))
    && (r.error == Some(OpenFailed) ==> Ended(log, r.combo.stop, OtherError))
  }

  predicate AllExplained(log: seq<Attempt>, rows: seq<Row>)
  {
    forall i :: 0 <= i < |rows| ==> Explained(log, rows[i])
  }

  /**
   * Everything a scan has recorded is so: the opens ended as their ports were met, the probes were answered by the
   * world, each has the row that tells its answer, and every other row is explained by an open.
   */
  predicate Truthful(world: World, s: Progress)
  {
    && AllMet(world, s.log) && Answered(world, s.asked, 0)
    && AllExplained(s.log, s.rows)
    && (!s.escaped ==> AllTold(s.asked, Filter(WasProbed, s.rows)))
  }

  lemma {:induction false} AskedTold(world: World, combos: seq<Combo>, before: nat)
    ensures var a := Asked(world, combos, before);
      && Answered(world, a.asked, before) && |a.asked| <= |combos|
      && (!a.escaped ==> |a.asked| == |combos| && AllTold(a.asked, a.rows))
  {
    hide ProbeAddress, Tells, Consistent, ProbeEscapes, Exists;
    if combos != [] {
      var n := |combos| - 1;
      AskedTold(world, combos[..n], before);
      var p := Probe(combos[n], world.answers(before + n));
      ProbesAreConsistent(p.combo, p.answer);
      ProbeWasProbed(p.combo, p.answer);
    }
  }

  lemma ProbeWasProbed(combo: Combo, answer: Answer)
    ensures var r := ProbeAddress(combo, answer); r.Some? ==> WasProbed(r.value)
  {
  }

  lemma ToldRows(asked: seq<Probe>, rows: seq<Row>)
    requires AllTold(asked, rows)
    ensures Filter(WasProbed, rows) == rows
    ensures forall log :: AllExplained(log, rows)
  {
    FilterAll(WasProbed, rows, true);
  }

  lemma FailedRows(combos: seq<Combo>, why: ScanError)
    requires why in {PortDead, ConnectionFailed, OpenFailed}
    ensures Filter(WasProbed, AllFailed(combos, why)) == []
  {
    FilterAll(WasProbed, AllFailed(combos, why), false);
  }

  lemma MoreTold(asked: seq<Probe>, rows: seq<Row>, more: seq<Probe>, moreRows: seq<Row>)
    requires AllTold(asked, rows) && AllTold(more, moreRows)
    ensures AllTold(asked + more, rows + moreRows)
  {
    hide Tells, WasProbed;
  }

  lemma MoreAnswered(world: World, asked: seq<Probe>, more: seq<Probe>)
    requires Answered(world, asked, 0) && Answered(world, more, |asked|)
    ensures Answered(world, asked + more, 0)
  {
  }

  lemma StillExplained(log: seq<Attempt>, a: Attempt, rows: seq<Row>)
    requires AllExplained(log, rows)
    ensures AllExplained(log + [a], rows)
  {
    hide Explained;
    forall i | 0 <= i < |rows| ensures Explained(log + [a], rows[i]) { StillOne(log, a, rows[i]); }
  }

  lemma StillOne(log: seq<Attempt>, a: Attempt, r: Row)
    requires Explained(log, r)
    ensures Explained(log + [a], r)
  {
    var longer := log + [a];
    assert forall k :: 0 <= k < |log| ==> longer[k] == log[k];
  }

  lemma MoreExplained(log: seq<Attempt>, rows: seq<Row>, more: seq<Row>)
    requires AllExplained(log, rows) && AllExplained(log, more)
    ensures AllExplained(log, rows + more)
  {
    hide Explained;
  }

  lemma FailureExplained(log: seq<Attempt>, stop: Stop, combos: seq<Combo>, why: ScanError)
    requires forall i :: 0 <= i < |combos| ==> combos[i].stop == stop
    requires match why
             case PortDead => Struck(log, stop.port)
             case ConnectionFailed => Ended(log, stop, NoConnection)
             case OpenFailed => Ended(log, stop, OtherError)
             case _ => false
    ensures AllExplained(log, AllFailed(combos, why))
  {
    hide Struck, Ended;
  }

  lemma OneMoreMet(world: World, log: seq<Attempt>, a: Attempt)
    requires AllMet(world, log) && MetAs(a, world.ports(|log|), world.closes(|log|))
    ensures AllMet(world, log + [a]) && Ended(log + [a], a.stop, a.opening)
  {
    hide MetAs;
    assert (log + [a])[|log|] == a;
  }

  lemma SeenSoFar(rows: seq<Row>, more: seq<Row>)
    ensures Filter(WasProbed, rows + more) == Filter(WasProbed, rows) + Filter(WasProbed, more)
  {
    FilterAppend(WasProbed, rows, more);
  }

  lemma VisitedTruthful(world: World, w: Sweep, s: Progress, stop: Stop)
    requires Truthful(world, s) && KnowsTheDead(s.dead, s.log)
    ensures Truthful(world, Visited(world, w, s, stop))
  {
    var combos, t := AddressCombos(w, stop), Visited(world, w, s, stop);
    if s.escaped || (w.prune && !Reached(stop)) {
    } else {
      SameStop(w, stop);
      hide AddressCombos, Asked, AllMet, Answered, AllExplained, AllTold, MetAs, Reached, Ended, Filter, WasProbed, KnowsTheDead, Struck;
      if stop.port in s.dead {
        DeadIsStruck(s, stop.port);
        FailureExplained(s.log, stop, combos, PortDead);
        AddedRows(s, AllFailed(combos, PortDead), s.log);
        FailedRows(combos, PortDead);
      } else {
        VisitedOpen(world, w, s, stop);
      }
    }
  }

  lemma DeadIsStruck(s: Progress, port: string)
    requires KnowsTheDead(s.dead, s.log) && port in s.dead
    ensures Struck(s.log, port)
  {
  }

  lemma AddedRows(s: Progress, more: seq<Row>, log: seq<Attempt>)
    requires AllExplained(log, s.rows) && AllExplained(log, more)
    ensures AllExplained(log, s.rows + more)
    ensures Filter(WasProbed, s.rows + more) == Filter(WasProbed, s.rows) + Filter(WasProbed, more)
  {
    MoreExplained(log, s.rows, more);
    SeenSoFar(s.rows, more);
  }

  lemma VisitedOpen(world: World, w: Sweep, s: Progress, stop: Stop)
    requires Truthful(world, s) && !s.escaped && (w.prune ==> Reached(stop)) && stop.port !in s.dead
    ensures Truthful(world, Visited(world, w, s, stop))
  {
    hide AddressCombos, Asked, AllMet, Answered, AllExplained, AllTold, MetAs, Reached, Ended, Filter, WasProbed, Struck;
    var combos, t := AddressCombos(w, stop), Visited(world, w, s, stop);
    SameStop(w, stop);
    AsMet(world, w, s, stop);
    var a := t.log[|s.log|];
    OneMoreMet(world, s.log, a);
    StillExplained(s.log, a, s.rows);
    match a.opening
    case NoConnection => FailedTruthful(s, t, stop, combos, ConnectionFailed);
    case OtherError => FailedTruthful(s, t, stop, combos, OpenFailed);
    case Foreign =>
    case Opened => OpenedTruthful(world, s, t, combos);
  }

  lemma SameStop(w: Sweep, stop: Stop)
    ensures forall i :: 0 <= i < |AddressCombos(w, stop)| ==> AddressCombos(w, stop)[i].stop == stop
  {
  }

  lemma FailedTruthful(s: Progress, t: Progress, stop: Stop, combos: seq<Combo>, why: ScanError)
    requires forall i :: 0 <= i < |combos| ==> combos[i].stop == stop
    requires AllExplained(t.log, s.rows) && t.rows == s.rows + AllFailed(combos, why)
    requires (why.ConnectionFailed? && Ended(t.log, stop, NoConnection)) || (why.OpenFailed? && Ended(t.log, stop, OtherError))
    ensures AllExplained(t.log, t.rows) && Filter(WasProbed, t.rows) == Filter(WasProbed, s.rows)
  {
    hide AllExplained, Ended, Filter, WasProbed, Struck;
    FailureExplained(t.log, stop, combos, why);
    FailedRows(combos, why);
    AddedRows(s, AllFailed(combos, why), t.log);
  }

  lemma OpenedTruthful(world: World, s: Progress, t: Progress, combos: seq<Combo>)
    requires Answered(world, s.asked, 0) && AllTold(s.asked, Filter(WasProbed, s.rows)) && AllExplained(t.log, s.rows)
    requires var asking := Asked(world, combos, |s.asked|);
      && t.asked == s.asked + asking.asked && (asking.escaped ==> t.escaped)
      && t.rows == if t.escaped then s.rows else s.rows + asking.rows
    ensures Answered(world, t.asked, 0) && AllExplained(t.log, t.rows)
    ensures !t.escaped ==> AllTold(t.asked, Filter(WasProbed, t.rows))
  {
    hide Asked, AllExplained, AllTold, Answered, Filter, WasProbed;
    var asking := Asked(world, combos, |s.asked|);
    AskedTold(world, combos, |s.asked|);
    MoreAnswered(world, s.asked, asking.asked);
    if !t.escaped {
      ToldRows(asking.asked, asking.rows);
      AddedRows(s, asking.rows, t.log);
      MoreTold(s.asked, Filter(WasProbed, s.rows), asking.asked, asking.rows);
    }
  }

  lemma AsMet(world: World, w: Sweep, s: Progress, stop: Stop)
    requires !s.escaped && (w.prune ==> Reached(stop)) && stop.port !in s.dead
    ensures var t := Visited(world, w, s, stop);
      && |t.log| == |s.log| + 1 && t.log == s.log + [t.log[|s.log|]]
      && t.log[|s.log|].stop == stop && t.log[|s.log|].opening == OpeningOf(stop.plan.protocol, world.ports(|s.log|))
      && MetAs(t.log[|s.log|], world.ports(|s.log|), world.closes(|s.log|))
  {
    hide AddressCombos, Asked, Reached;
  }

  /** Whatever the world does, a scan tells the truth about it. */
  lemma {:induction false} ScansAreTruthful(world: World, w: Sweep, stops: seq<Stop>)
    ensures Truthful(world, AllVisited(world, w, NOTHING, stops))
  {
    hide Visited, Truthful, KnowsTheDead, Considerate;
    if stops == [] {
      NothingTold(world);
    } else {
      var front := stops[..|stops| - 1];
      ScansAreTruthful(world, w, front);
      ScansAreConsiderate(world, w, front);
      VisitedTruthful(world, w, AllVisited(world, w, NOTHING, front), stops[|stops| - 1]);
    }
  }

  lemma TruthfulRows(world: World, s: Progress)
    requires Truthful(world, s) && !s.escaped
    ensures AllTold(s.asked, Filter(WasProbed, s.rows)) && Answered(world, s.asked, 0) && AllExplained(s.log, s.rows)
  {
  }

  lemma NothingTold(world: World)
    ensures Truthful(world, NOTHING)
  {
  }

  // ---------------------------------------------------------------- what can be told before a scan

  /** Devices that answer or keep silent, and ports that close. */
  ghost predicate Calm(world: World)
  {
    (forall n :: world.closes(n)) && forall n :: !world.answers(n).Broken?
  }

  /** A transport that can fail a scan by the condition of its port, or by its plan alone. */
  predicate Risky(w: Sweep, stop: Stop)
  {
    && (w.prune ==> Reached(stop))
    && (stop.plan.protocol.ModbusRtu? || (stop.plan.protocol.Auto? && w.addresses != []))
  }

  lemma {:induction false} CalmProbes(world: World, combos: seq<Combo>, before: nat)
    requires Calm(world) && forall i :: 0 <= i < |combos| ==> !combos[i].stop.plan.protocol.Auto?
    ensures !Asked(world, combos, before).escaped
  {
    if combos != [] { CalmProbes(world, combos[..|combos| - 1], before); }
  }

  lemma {:induction false} SafeStops(world: World, w: Sweep, s: Progress, stops: seq<Stop>)
    requires Calm(world) && !s.escaped && forall i :: 0 <= i < |stops| ==> !Risky(w, stops[i])
    ensures !AllVisited(world, w, s, stops).escaped
  {
    if stops != [] {
      var front, stop := stops[..|stops| - 1], stops[|stops| - 1];
      SafeStops(world, w, s, front);
      if !stop.plan.protocol.Auto? { CalmProbes(world, AddressCombos(w, stop), |AllVisited(world, w, s, front).asked|); }
    }
  }

  /** A calm world whose ports are all free but for the one met by the n-th open. */
  function OnlyMissing(n: nat): World
  {
    World(i => if i == n then Unavailable else Free, i => true, i => NoReply)
  }

  /** A calm world whose ports are all free. */
  function AllFree(): World
  {
    World(i => Free, i => true, i => NoReply)
  }

  lemma {:induction false} FreePortsStayAlive(w: Sweep, stops: seq<Stop>)
    ensures AllVisited(AllFree(), w, NOTHING, stops).dead == {}
  {
    hide Asked, AddressCombos;
    if stops != [] { FreePortsStayAlive(w, stops[..|stops| - 1]); }
  }

  lemma LogGrows(world: World, w: Sweep, s: Progress, stop: Stop)
    ensures |s.log| <= |Visited(world, w, s, stop).log|
  {
    hide Asked, AddressCombos;
  }

  /** Up to the n-th open the two worlds are the same. */
  lemma {:induction false} SameUntilMissing(w: Sweep, stops: seq<Stop>, n: nat)
    requires |AllVisited(AllFree(), w, NOTHING, stops).log| <= n
    ensures AllVisited(OnlyMissing(n), w, NOTHING, stops) == AllVisited(AllFree(), w, NOTHING, stops)
  {
    hide AddressCombos;
    if stops != [] {
      var front, stop := stops[..|stops| - 1], stops[|stops| - 1];
      var s := AllVisited(AllFree(), w, NOTHING, front);
      LogGrows(AllFree(), w, s, stop);
      SameUntilMissing(w, front, n);
      SameAsking(AddressCombos(w, stop), |s.asked|, n);
      LastOpen(w, s, stop, n);
    }
  }

  lemma {:induction false} SameAsking(combos: seq<Combo>, before: nat, n: nat)
    ensures Asked(OnlyMissing(n), combos, before) == Asked(AllFree(), combos, before)
  {
    hide ProbeAddress;
    if combos != [] { SameAsking(combos[..|combos| - 1], before, n); }
  }

  lemma LastOpen(w: Sweep, s: Progress, stop: Stop, n: nat)
    requires |Visited(AllFree(), w, s, stop).log| <= n
    requires Asked(OnlyMissing(n), AddressCombos(w, stop), |s.asked|) == Asked(AllFree(), AddressCombos(w, stop), |s.asked|)
    ensures Visited(OnlyMissing(n), w, s, stop) == Visited(AllFree(), w, s, stop)
  {
    hide Asked, AddressCombos;
  }

  /** At a Modbus transport a missing port fails the scan, at an Auto one any port does. */
  lemma RiskyStopFails(w: Sweep, stops: seq<Stop>, i: nat) returns (world: World)
    requires i < |stops| && Risky(w, stops[i])
    ensures Calm(world) && AllVisited(world, w, NOTHING, stops).escaped
  {
    hide Calm, Visited, AddressCombos;
    var front, stop := stops[..i], stops[i];
    var s := AllVisited(AllFree(), w, NOTHING, front);
    assert stops == (front + [stop]) + stops[i + 1..];
    world := if s.escaped || !stop.plan.protocol.ModbusRtu? then AllFree() else OnlyMissing(|s.log|);
    assert Calm(world) by { CalmWorlds(|s.log|); }
    FreePortsStayAlive(w, front);
    SameUntilMissing(w, front, |s.log|);
    VisitedSnoc(world, w, NOTHING, front, stop);
    RiskyVisit(world, w, s, stop);
    VisitedAppend(world, w, NOTHING, front + [stop], stops[i + 1..]);
    EscapedStays(world, w, AllVisited(world, w, NOTHING, front + [stop]), stops[i + 1..]);
  }

  lemma CalmWorlds(n: nat)
    ensures Calm(AllFree()) && Calm(OnlyMissing(n))
  {
  }

  lemma RiskyVisit(world: World, w: Sweep, s: Progress, stop: Stop)
    requires Risky(w, stop) && s.dead == {}
    requires world == if s.escaped || !stop.plan.protocol.ModbusRtu? then AllFree() else OnlyMissing(|s.log|)
    ensures Visited(world, w, s, stop).escaped
  {
    if stop.plan.protocol.Auto? { AutoProbeFails(world, AddressCombos(w, stop), |s.asked|); }
  }

  lemma AutoProbeFails(world: World, combos: seq<Combo>, before: nat)
    requires combos != [] && combos[0].stop.plan.protocol.Auto?
    ensures Asked(world, combos, before).escaped
  {
    assert combos[..1][..0] == [];
    AskingStops(world, combos, before, 1);
  }

  /**
   * Told before the call: with devices that answer or keep silent, a scan returns its rows whatever the
   * condition of the ports if and only if none of the transports it reaches is Modbus (or Auto, with an
   * address to probe).
   */
  lemma SafeIffNoRiskyStop(w: Sweep)
    ensures (forall world :: Calm(world) ==> !Scanned(world, w).escaped)
       <==> forall i :: 0 <= i < |AllStops(w)| ==> !Risky(w, AllStops(w)[i])
  {
    hide Calm, Risky;
    var stops := AllStops(w);
    if i :| 0 <= i < |stops| && Risky(w, stops[i]) {
      var world := RiskyStopFails(w, stops, i);
      assert Calm(world) && Scanned(world, w).escaped;
    } else {
      forall world | Calm(world) ensures !Scanned(world, w).escaped { SafeStops(world, w, NOTHING, stops); }
    }
  }

  /** The smallest scan that raises instead of returning rows: one Modbus plan and a port that is missing. */
  lemma MissingModbusPortRaises(port: string, baud: nat, address: int)
    ensures var w := Sweep([port], [baud], [Plan(ModbusRtu, None)], [address], true);
      var s := Scanned(OnlyMissing(0), w);
      s.escaped && s.rows == [] && s.dead == {} && s.log == [Attempt(Stop(port, baud, Plan(ModbusRtu, None)), Foreign, true)]
  {
    var w := Sweep([port], [baud], [Plan(ModbusRtu, None)], [address], true);
    var stop := Stop(port, baud, Plan(ModbusRtu, None));
    assert PlanStops(w, port, baud) == [stop];
    assert BaudStops(w, port) == [[stop]];
    assert Flatten([[stop]]) == [stop] by { FlattenSnoc<Stop>([], [stop]); }
    assert PortStops(w) == [[stop]];
    VisitedSnoc(OnlyMissing(0), w, NOTHING, [], stop);
    assert [] + [stop] == AllStops(w);
  }

  // ---------------------------------------------------------------- what a scan does to ports

  /** No port is opened again after a failed connection. */
  predicate Considerate(log: seq<Attempt>)
  {
    forall i, j :: 0 <= i < j < |log| && log[i].stop.port == log[j].stop.port ==> !log[i].opening.NoConnection?
  }

  /** A connection to the port has failed. */
  predicate Struck(log: seq<Attempt>, port: string)
  {
    exists i :: 0 <= i < |log| && log[i].stop.port == port && log[i].opening.NoConnection?
  }

  /** Exactly the ports whose connection failed are dead. */
  ghost predicate KnowsTheDead(dead: set<string>, log: seq<Attempt>)
  {
    forall p :: p in dead <==> Struck(log, p)
  }

  lemma OneMoreAttempt(dead: set<string>, log: seq<Attempt>, a: Attempt)
    requires Considerate(log) && KnowsTheDead(dead, log) && a.stop.port !in dead
    ensures Considerate(log + [a])
    ensures KnowsTheDead(if a.opening.NoConnection? then dead + {a.stop.port} else dead, log + [a])
  {
    var longer := log + [a];
    forall p ensures Struck(longer, p) <==> Struck(log, p) || (a.opening.NoConnection? && a.stop.port == p) {
      if Struck(log, p) {
        var i :| 0 <= i < |log| && log[i].stop.port == p && log[i].opening.NoConnection?;
        assert longer[i].stop.port == p && longer[i].opening.NoConnection?;
      }
      assert longer[|log|] == a;
    }
  }

  lemma {:induction false} ScansAreConsiderate(world: World, w: Sweep, stops: seq<Stop>)
    ensures var s := AllVisited(world, w, NOTHING, stops); Considerate(s.log) && KnowsTheDead(s.dead, s.log)
  {
    hide Asked, AddressCombos, Considerate, KnowsTheDead;
    if stops == [] {
      NobodyStruck();
    } else {
      var s, stop := AllVisited(world, w, NOTHING, stops[..|stops| - 1]), stops[|stops| - 1];
      ScansAreConsiderate(world, w, stops[..|stops| - 1]);
      var t := Visited(world, w, s, stop);
      if t.log != s.log { OneMoreAttempt(s.dead, s.log, t.log[|s.log|]); }
    }
  }

  lemma NobodyStruck()
    ensures Considerate([]) && KnowsTheDead({}, [])
  {
  }

  // ---------------------------------------------------------------- the scan

  datatype Refusal = BadTimeout | AutoProtocol | Escaped

  class Scan {
    const world: World
    var rows: seq<Row>
    var dead: set<string>
    var opens: nat
    var probes: nat
    /** The port whose transport is open. */
    var held: Option<string>
    /** An error is on its way out of the scan. */
    var escaped: bool
    ghost var log: seq<Attempt>
    ghost var asked: seq<Probe>

    constructor (world: World)
      ensures this.world == world && State() == NOTHING && Valid()
    {
      this.world := world;
      rows, dead, opens, probes, held, escaped := [], {}, 0, 0, None, false;
      log, asked := [], [];
    }

    ghost function State(): Progress
      reads this
    {
      Progress(rows, dead, log, asked, escaped)
    }

    /** Nothing is open, and the records hold every open and every probe. */
    ghost predicate Valid()
      reads this
    {
      held.None? && |log| == opens && |asked| == probes
    }

    /** Opens one transport, probes every address over it, and closes it whatever happens. */
    method ProbeCombo(stop: Stop, combos: seq<Combo>) returns (found: seq<Row>, died: bool)
      requires Valid() && !escaped
      modifies this`opens, this`probes, this`held, this`log, this`asked, this`escaped
      ensures Valid()
      ensures var opening := OpeningOf(stop.plan.protocol, world.ports(old(opens)));
        var closed := !opening.Opened? || ClosedWell(stop.plan.protocol, world.closes(old(opens)));
        && log == old(log) + [Attempt(stop, opening, closed)]
        && (opening.Opened? ==>
              var asking := Asked(world, combos, old(probes));
              asked == old(asked) + asking.asked && escaped == (asking.escaped || !closed) && (!escaped ==> found == asking.rows))
        && (!opening.Opened? ==> asked == old(asked) && escaped == opening.Foreign?)
        && died == opening.NoConnection?
        && (opening.NoConnection? ==> found == AllFailed(combos, ConnectionFailed))
        && (opening.OtherError? ==> found == AllFailed(combos, OpenFailed))
    {
      hide Asked;
      var n := opens;
      var opening := OpeningOf(stop.plan.protocol, world.ports(n));
      opens := n + 1;
      match opening
      case NoConnection =>
        log := log + [Attempt(stop, opening, true)];
        return AllFailed(combos, ConnectionFailed), true;
      case OtherError =>
        log := log + [Attempt(stop, opening, true)];
        return AllFailed(combos, OpenFailed), false;
      case Foreign =>
        log, escaped := log + [Attempt(stop, opening, true)], true;
        return [], false;
      case Opened =>
        died, held := false, Some(stop.port);
        found := ProbeAll(combos);
        held := None;
        var closed := ClosedWell(stop.plan.protocol, world.closes(n));
        log, escaped := log + [Attempt(stop, opening, closed)], escaped || !closed;
    }

    /** Probes every address over the open transport, until an error escapes. */
    method ProbeAll(combos: seq<Combo>) returns (found: seq<Row>)
      requires held.Some? && |asked| == probes && !escaped
      modifies this`probes, this`asked, this`escaped
      ensures |asked| == probes
      ensures var asking := Asked(world, combos, old(probes));
        asked == old(asked) + asking.asked && escaped == asking.escaped && (!escaped ==> found == asking.rows)
    {
      hide ProbeAddress;
      found := [];
      for i := 0 to |combos|
        invariant var asking := Asked(world, combos[..i], old(probes));
                  !asking.escaped && found == asking.rows && asked == old(asked) + asking.asked
        invariant |asked| == probes == old(probes) + i && !escaped
      {
        assert combos[..i + 1][..i] == combos[..i];
        var answer := world.answers(probes);
        var row := ProbeAddress(combos[i], answer);
        probes, asked := probes + 1, asked + [Probe(combos[i], answer)];
        if row.None? {
          escaped := true;
          AskingStops(world, combos, old(probes), i + 1);
          return;
        }
        found := found + [row.value];
      }
      assert combos[..|combos|] == combos;
    }

    /** One transport of the scan: none if pruned, all failed if its port is dead. */
    method ScanCombo(w: Sweep, stop: Stop)
      requires Valid() && !escaped
      modifies this`rows, this`dead, this`opens, this`probes, this`held, this`log, this`asked, this`escaped
      ensures Valid() && State() == Visited(world, w, old(State()), stop)
    {
      hide AddressCombos, Asked, Reached;
      var combos := AddressCombos(w, stop);
      if w.prune && !Reached(stop) { return; }
      if stop.port in dead {
        rows := rows + AllFailed(combos, PortDead);
        return;
      }
      var found, died := ProbeCombo(stop, combos);
      if escaped { return; }
      rows := rows + found;
      if died { dead := dead + {stop.port}; }
    }

    /**
     * The scan; without profiles the plan must not ask for automatic detection. It does exactly what is
     * specified, and returns the rows unless an error escapes.
     */
    method FindDevices(w: Sweep, timeout: real, byProfile: bool) returns (r: Result<seq<Row>, Refusal>)
      requires Valid() && State() == NOTHING
      modifies this
      ensures Valid() && Considerate(log) && Truthful(world, State())
      ensures timeout <= 0.0 ==> r == Err(BadTimeout) && State() == NOTHING
      ensures timeout > 0.0 && !byProfile && (exists p :: p in w.plans && p.protocol.Auto?) ==> r == Err(AutoProtocol) && State() == NOTHING
      ensures timeout > 0.0 && (byProfile || forall p :: p in w.plans ==> !p.protocol.Auto?) ==>
                && State() == Scanned(world, w)
                && r == if Clean(State()) then Ok(rows) else Err(Escaped)
      ensures r.Ok? ==> Combos(r.value) == Kept(w, AllCombos(w)) && AllConsistent(r.value)
      ensures r.Ok? ==> AllTold(asked, Filter(WasProbed, r.value)) && Answered(world, asked, 0) && AllExplained(log, r.value)
    {
      hide Clean, Considerate, Kept, AllCombos, AllConsistent, Combos, Truthful, AllTold, Answered, AllExplained;
      NobodyStruck();
      NothingTold(world);
      if timeout <= 0.0 { return Err(BadTimeout); }
      if !byProfile && exists p :: p in w.plans && p.protocol.Auto? { return Err(AutoProtocol); }
      ScanAll(w);
      ScansAreConsiderate(world, w, AllStops(w));
      ScansAreTruthful(world, w, AllStops(w));
      FinishesIff(world, w);
      if escaped { return Err(Escaped); }
      ScanShape(world, w);
      TruthfulRows(world, State());
      return Ok(rows);
    }

    method ScanAll(w: Sweep)
      requires Valid() && !escaped
      modifies this`rows, this`dead, this`opens, this`probes, this`held, this`log, this`asked, this`escaped
      ensures Valid() && State() == AllVisited(world, w, old(State()), AllStops(w))
    {
      hide Visited, AllVisited, Flatten, PortStops, BaudStops, PlanStops;
      ghost var s := State();
      BlocksAt(w);
      NoneVisited(world, w, s, PortStops(w));
      for p := 0 to |w.ports|
        invariant Valid() && !escaped && State() == AllVisited(world, w, s, Flatten(PortStops(w)[..p]))
      {
        var port := w.ports[p];
        ghost var t := State();
        NoneVisited(world, w, t, BaudStops(w, port));
        for b := 0 to |w.bauds|
          invariant Valid() && !escaped && State() == AllVisited(world, w, t, Flatten(BaudStops(w, port)[..b]))
        {
          var baud := w.bauds[b];
          ghost var u := State();
          ghost var stops := PlanStops(w, port, baud);
          NoneVisitedYet(world, w, u, stops);
          for k := 0 to |w.plans|
            invariant Valid() && !escaped && State() == AllVisited(world, w, u, stops[..k])
          {
            OneVisited(world, w, u, stops, k);
            ScanCombo(w, Stop(port, baud, w.plans[k]));
            if escaped {
              RestSkipped(world, w, u, stops, k + 1);
              BlockVisited(world, w, t, BaudStops(w, port), b);
              BlockVisited(world, w, s, PortStops(w), p);
              return;
            }
          }
          BlockVisited(world, w, t, BaudStops(w, port), b);
        }
        BlockVisited(world, w, s, PortStops(w), p);
      }
    }
  }

  lemma BlocksAt(w: Sweep)
    ensures |PortStops(w)| == |w.ports|
    ensures forall p :: 0 <= p < |w.ports| ==> PortStops(w)[p] == Flatten(BaudStops(w, w.ports[p]))
    ensures forall port :: |BaudStops(w, port)| == |w.bauds|
    ensures forall port, b :: 0 <= b < |w.bauds| ==> BaudStops(w, port)[b] == PlanStops(w, port, w.bauds[b])
    ensures forall port, baud :: |PlanStops(w, port, baud)| == |w.plans|
    ensures forall port, baud, k :: 0 <= k < |w.plans| ==> PlanStops(w, port, baud)[k] == Stop(port, baud, w.plans[k])
  {
  }

  lemma NoneVisitedYet(world: World, w: Sweep, s: Progress, stops: seq<Stop>)
    ensures AllVisited(world, w, s, stops[..0]) == s && stops[..|stops|] == stops
  {
  }

  lemma NoneVisited(world: World, w: Sweep, s: Progress, blocks: seq<seq<Stop>>)
    ensures AllVisited(world, w, s, Flatten(blocks[..0])) == s && blocks[..|blocks|] == blocks
  {
  }

  lemma OneVisited(world: World, w: Sweep, s: Progress, stops: seq<Stop>, k: nat)
    requires k < |stops|
    ensures AllVisited(world, w, s, stops[..k + 1]) == Visited(world, w, AllVisited(world, w, s, stops[..k]), stops[k])
  {
    assert stops[..k + 1] == stops[..k] + [stops[k]];
    VisitedSnoc(world, w, s, stops[..k], stops[k]);
  }

  /** After an error nothing more is visited. */
  lemma RestSkipped(world: World, w: Sweep, s: Progress, stops: seq<Stop>, k: nat)
    requires k <= |stops| && AllVisited(world, w, s, stops[..k]).escaped
    ensures AllVisited(world, w, s, stops) == AllVisited(world, w, s, stops[..k])
  {
    hide Visited;
    assert stops == stops[..k] + stops[k..];
    VisitedAppend(world, w, s, stops[..k], stops[k..]);
    EscapedStays(world, w, AllVisited(world, w, s, stops[..k]), stops[k..]);
  }

  /** One more block visited, and with it all blocks if an error has escaped from it. */
  lemma BlockVisited(world: World, w: Sweep, s: Progress, blocks: seq<seq<Stop>>, k: nat)
    requires k < |blocks|
    ensures var t := AllVisited(world, w, AllVisited(world, w, s, Flatten(blocks[..k])), blocks[k]);
      && AllVisited(world, w, s, Flatten(blocks[..k + 1])) == t
      && (t.escaped ==> AllVisited(world, w, s, Flatten(blocks)) == t)
  {
    hide Visited;
    assert blocks[..k + 1] == blocks[..k] + [blocks[k]];
    FlattenSnoc(blocks[..k], blocks[k]);
    VisitedAppend(world, w, s, Flatten(blocks[..k]), blocks[k]);
    var done := Flatten(blocks[..k + 1]);
    assert blocks == blocks[..k + 1] + blocks[k + 1..];
    FlattenAppend(blocks[..k + 1], blocks[k + 1..]);
    if AllVisited(world, w, s, done).escaped {
      RestSkipped(world, w, s, Flatten(blocks), |done|);
    }
  }

  lemma {:induction false} AskingStops(world: World, combos: seq<Combo>, before: nat, i: nat)
    requires i <= |combos| && Asked(world, combos[..i], before).escaped
    ensures Asked(world, combos, before) == Asked(world, combos[..i], before)
    decreases |combos| - i
  {
    hide ProbeAddress;
    if i == |combos| {
      assert combos[..i] == combos;
    } else {
      assert combos[..i + 1][..i] == combos[..i];
      AskingStops(world, combos, before, i + 1);
    }
  }
}
