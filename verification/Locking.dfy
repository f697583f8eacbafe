/** Tasks sharing ports: FIFO locks, owner-aware re-entry, and what the wire of each port carries. */
module Locking {
  import opened Wrappers

  /**
   * What a task asks for. `Execute` is one session call, `PollController` a batch on one device,
   * `PollGroup` the batch of a whole port, whose samples are then collected under a plain lock.
   */
  datatype Call =
    | Execute(port: nat, id: nat)
    | PollController(port: nat, ids: seq<nat>)
    | PollGroup(port: nat, members: seq<seq<nat>>, result: nat)

  /** `Enter` acquires unless its caller owns the lock already, `Plain` always acquires. */
  datatype Op = Enter(lock: nat) | Plain(lock: nat) | Leave(lock: nat) | Send(lock: nat, id: nat)

  function ExecuteOps(p: nat, id: nat): seq<Op>
  {
    [Enter(p), Send(p, id), Leave(p)]
  }

  function ReadOps(p: nat, ids: seq<nat>): seq<Op>
  {
    if ids == [] then [] else ExecuteOps(p, ids[0]) + ReadOps(p, ids[1..])
  }

  function PollOps(p: nat, ids: seq<nat>): seq<Op>
  {
    [Enter(p)] + ReadOps(p, ids) + [Leave(p)]
  }

  function MemberOps(p: nat, members: seq<seq<nat>>): seq<Op>
  {
    if members == [] then [] else PollOps(p, members[0]) + MemberOps(p, members[1..])
  }

  /** What follows the port's batch. */
  function Collect(c: Call): seq<Op>
  {
    if c.PollGroup? then [Plain(c.result), Leave(c.result)] else []
  }

  function Ops(c: Call): seq<Op>
  {
    match c
    case Execute(p, id) => ExecuteOps(p, id)
    case PollController(p, ids) => PollOps(p, ids)
    case PollGroup(p, members, _) => [Enter(p)] + MemberOps(p, members) + [Leave(p)] + Collect(c)
  }

  function Join(members: seq<seq<nat>>): seq<nat>
  {
    if members == [] then [] else members[0] + Join(members[1..])
  }

  /** The wire transactions of a call under a lock, as its caller asked for them. */
  function Wires(c: Call, l: nat): seq<nat>
  {
    if l != c.port then []
    else match c
      case Execute(_, id) => [id]
      case PollController(_, ids) => ids
      case PollGroup(_, members, _) => Join(members)
  }

  // ---------------------------------------------------------------- the state machine

  /** `Acquired` when leaving must release, `Reused` when an outer frame holds the lock. */
  datatype Frame = Acquired(lock: nat) | Reused(lock: nat)

  /** A task: calls begun, operations left of the latest one, open frames, sends under them, lock waited for. */
  datatype Task = Task(begun: nat, todo: seq<Op>, frames: seq<Frame>, sent: nat, waiting: Option<nat>)

  datatype Ticket = Ticket(task: nat, call: nat)

  datatype Sent = Sent(tk: Ticket, id: nat)

  /** A lock with its FIFO queue, the port's wire so far, and the acquisitions already given back. */
  datatype Lock = Lock(owner: Option<nat>, waiters: seq<nat>, wire: seq<Sent>, closed: seq<Ticket>)

  datatype State = State(locks: seq<Lock>, tasks: seq<Task>)

  type Programs = seq<seq<Call>>

  predicate WellFormed(ps: Programs, n: nat)
  {
    forall t, c :: 0 <= t < |ps| && 0 <= c < |ps[t]| ==>
      ps[t][c].port < n && (ps[t][c].PollGroup? ==> ps[t][c].result < n && ps[t][c].result != ps[t][c].port)
  }

  function Initial(ps: Programs, n: nat): State
  {
    State(seq(n, l => Lock(None, [], [], [])), seq(|ps|, t => Task(0, [], [], 0, None)))
  }

  predicate Enabled(ps: Programs, s: State, t: nat)
  {
    t < |s.tasks| == |ps| && s.tasks[t].waiting.None? && (s.tasks[t].todo != [] || s.tasks[t].begun < |ps[t]|)
  }

  function Tail(ops: seq<Op>): seq<Op>
  {
    if ops == [] then [] else ops[1..]
  }

  /** Makes `t` the owner of `l`, and leaves `waiters` in its queue. */
  function Grant(s: State, t: nat, l: nat, waiters: seq<nat>): State
    requires t < |s.tasks| && l < |s.locks|
  {
    var task := s.tasks[t];
    State(s.locks[l := s.locks[l].(owner := Some(t), waiters := waiters)],
          s.tasks[t := task.(todo := Tail(task.todo), frames := task.frames + [Acquired(l)], sent := 0, waiting := None)])
  }

  /** Acquires `l` if it is free and unwanted, or else joins its queue. */
  function Request(s: State, t: nat, l: nat): State
    requires t < |s.tasks| && l < |s.locks|
  {
    if s.locks[l].owner.None? && s.locks[l].waiters == [] then Grant(s, t, l, [])
    else
      s.(locks := s.locks[l := s.locks[l].(waiters := s.locks[l].waiters + [t])],
         tasks := s.tasks[t := s.tasks[t].(waiting := Some(l))])
  }

  /** Leaves the outermost frame and gives the lock up. */
  function Vacate(s: State, t: nat, l: nat): State
    requires t < |s.tasks| && l < |s.locks| && s.tasks[t].begun >= 1
  {
    var task := s.tasks[t];
    var lock := s.locks[l];
    s.(locks := s.locks[l := lock.(owner := None, closed := lock.closed + [Ticket(t, task.begun - 1)])],
       tasks := s.tasks[t := task.(todo := Tail(task.todo), frames := [])])
  }

  /** Hands a lock just given up to the first waiter, if there is one. */
  function HandOver(s: State, l: nat): State
    requires l < |s.locks| && (forall w <- s.locks[l].waiters :: w < |s.tasks|)
  {
    var waiters := s.locks[l].waiters;
    if waiters == [] then s else assert waiters[0] in waiters; Grant(s, waiters[0], l, waiters[1..])
  }

  function Begin(ps: Programs, s: State, t: nat): State
    requires t < |s.tasks| == |ps| && s.tasks[t].begun < |ps[t]|
  {
    var task := s.tasks[t];
    s.(tasks := s.tasks[t := task.(begun := task.begun + 1, todo := Ops(ps[t][task.begun]))])
  }

  function Push(s: State, t: nat, l: nat): State
    requires t < |s.tasks|
  {
    var task := s.tasks[t];
    s.(tasks := s.tasks[t := task.(todo := Tail(task.todo), frames := task.frames + [Reused(l)])])
  }

  function Pop(s: State, t: nat): State
    requires t < |s.tasks| && s.tasks[t].frames != []
  {
    var task := s.tasks[t];
    s.(tasks := s.tasks[t := task.(todo := Tail(task.todo), frames := task.frames[..|task.frames| - 1])])
  }

  function Transmit(s: State, t: nat, l: nat, id: nat): State
    requires t < |s.tasks| && l < |s.locks| && s.tasks[t].begun >= 1
  {
    var task := s.tasks[t];
    var lock := s.locks[l];
    State(s.locks[l := lock.(wire := lock.wire + [Sent(Ticket(t, task.begun - 1), id)])],
          s.tasks[t := task.(todo := Tail(task.todo), sent := task.sent + 1)])
  }

  /** One step of task `t`. */
  function Step(ps: Programs, s: State, t: nat): State
    requires Inv(ps, s) && Enabled(ps, s, t)
  {
    var task := s.tasks[t];
    assert TaskOk(ps, s, t);
    if task.todo == [] then Begin(ps, s, t)
    else
      match task.todo[0]
      case Enter(l) => if s.locks[l].owner == Some(t) then Push(s, t, l) else Request(s, t, l)
      case Plain(l) => Request(s, t, l)
      case Leave(l) =>
        if task.frames[|task.frames| - 1].Reused? then Pop(s, t)
        else assert LockOk(ps, s, l); HandOver(Vacate(s, t, l), l)
      case Send(l, id) => Transmit(s, t, l, id)
  }

  // ---------------------------------------------------------------- the invariant

  /** At depth `d` under lock `l`, `ops` sends exactly `ids` there until the lock is left, and then goes on with `after`. */
  predicate Under(ops: seq<Op>, d: nat, l: nat, ids: seq<nat>, after: seq<Op>)
    decreases |ops|
  {
    if d == 0 then ops == after && ids == []
    else
      && ops != [] && ops[0].lock == l
      && match ops[0]
         case Enter(_) => Under(ops[1..], d + 1, l, ids, after)
         case Leave(_) => Under(ops[1..], d - 1, l, ids, after)
         case Send(_, id) => ids != [] && ids[0] == id && Under(ops[1..], d, l, ids[1..], after)
         case Plain(_) => false
  }

  /** What the call still does once it has left lock `l`. */
  function Afterwards(c: Call, l: nat): seq<Op>
  {
    if l == c.port then Collect(c) else []
  }

  predicate Nested(frames: seq<Frame>)
  {
    frames != [] && frames[0].Acquired? && forall i :: 1 <= i < |frames| ==> frames[i] == Reused(frames[0].lock)
  }

  predicate TaskOk(ps: Programs, s: State, t: nat)
    requires t < |s.tasks| == |ps|
  {
    var task := s.tasks[t];
    && task.begun <= |ps[t]|
    && (task.todo != [] || task.frames != [] ==> task.begun >= 1)
    && if task.frames == [] then
         && (task.todo == [] || task.todo == Ops(ps[t][task.begun - 1]) || task.todo == Collect(ps[t][task.begun - 1]))
         && (task.todo != [] ==> task.todo[0].lock < |s.locks| && (task.todo[0].Enter? || task.todo[0].Plain?))
         && (task.waiting.Some? ==>
               && task.todo != [] && task.waiting.value == task.todo[0].lock
               && t in s.locks[task.waiting.value].waiters)
       else
         var l := task.frames[0].lock;
         && Nested(task.frames) && task.waiting.None?
         && l < |s.locks| && s.locks[l].owner == Some(t)
         && var c := ps[t][task.begun - 1];
            && (l == c.port || (c.PollGroup? && l == c.result))
            && task.sent <= |Wires(c, l)|
            && Under(task.todo, |task.frames|, l, Wires(c, l)[task.sent..], Afterwards(c, l))
  }

  function Tagged(tk: Ticket, ids: seq<nat>): seq<Sent>
  {
    seq(|ids|, i requires 0 <= i < |ids| => Sent(tk, ids[i]))
  }

  /** The wire of lock `l` if the calls `closed` ran there one after the other, each without interruption. */
  function Whole(ps: Programs, closed: seq<Ticket>, l: nat): seq<Sent>
  {
    if closed == [] then []
    else
      var tk := closed[|closed| - 1];
      Whole(ps, closed[..|closed| - 1], l) +
      if tk.task < |ps| && tk.call < |ps[tk.task]| then Tagged(tk, Wires(ps[tk.task][tk.call], l)) else []
  }

  predicate LockOk(ps: Programs, s: State, l: nat)
    requires l < |s.locks| && |s.tasks| == |ps|
  {
    var lock := s.locks[l];
    && (forall i :: 0 <= i < |lock.waiters| ==> lock.waiters[i] < |ps| && s.tasks[lock.waiters[i]].waiting == Some(l))
    && (forall i, j :: 0 <= i < j < |lock.waiters| ==> lock.waiters[i] != lock.waiters[j])
    && (lock.owner.None? ==> lock.wire == Whole(ps, lock.closed, l))
    && (lock.owner.Some? ==>
          var t := lock.owner.value;
          && t < |ps| && s.tasks[t].frames != [] && s.tasks[t].frames[0].lock == l
          && 1 <= s.tasks[t].begun <= |ps[t]|
          && var wires := Wires(ps[t][s.tasks[t].begun - 1], l);
             && s.tasks[t].sent <= |wires|
             && lock.wire == Whole(ps, lock.closed, l) + Tagged(Ticket(t, s.tasks[t].begun - 1), wires[..s.tasks[t].sent]))
  }

  /** Everything but that a free lock has no waiters, which is restored when a lock is handed over. */
  predicate Coherent(ps: Programs, s: State)
  {
    && |s.tasks| == |ps| && WellFormed(ps, |s.locks|)
    && (forall t :: 0 <= t < |s.tasks| ==> TaskOk(ps, s, t))
    && (forall l :: 0 <= l < |s.locks| ==> LockOk(ps, s, l))
  }

  predicate Settled(s: State, l: nat)
    requires l < |s.locks|
  {
    s.locks[l].owner.None? ==> s.locks[l].waiters == []
  }

  predicate Inv(ps: Programs, s: State)
  {
    Coherent(ps, s) && forall l :: 0 <= l < |s.locks| ==> Settled(s, l)
  }

  // ---------------------------------------------------------------- each kind of step keeps it

  lemma WholeSnoc(ps: Programs, closed: seq<Ticket>, tk: Ticket, l: nat)
    requires tk.task < |ps| && tk.call < |ps[tk.task]|
    ensures Whole(ps, closed + [tk], l) == Whole(ps, closed, l) + Tagged(tk, Wires(ps[tk.task][tk.call], l))
  {
    assert (closed + [tk])[..|closed|] == closed;
  }

  lemma LeaveUnder(p: nat, rest: seq<Op>, d: nat, more: seq<nat>, after: seq<Op>)
    requires Under(rest, d, p, more, after)
    ensures Under([Leave(p)] + rest, d + 1, p, more, after)
  {
    assert ([Leave(p)] + rest)[1..] == rest;
  }

  lemma SendUnder(p: nat, id: nat, rest: seq<Op>, d: nat, more: seq<nat>, after: seq<Op>)
    requires d >= 1 && Under(rest, d, p, more, after)
    ensures Under([Send(p, id)] + rest, d, p, [id] + more, after)
  {
    assert ([Send(p, id)] + rest)[1..] == rest && ([id] + more)[1..] == more;
  }

  lemma EnterUnder(p: nat, rest: seq<Op>, d: nat, more: seq<nat>, after: seq<Op>)
    requires d >= 1 && Under(rest, d + 1, p, more, after)
    ensures Under([Enter(p)] + rest, d, p, more, after)
  {
    assert ([Enter(p)] + rest)[1..] == rest;
  }

  lemma ExecuteUnder(p: nat, id: nat, rest: seq<Op>, d: nat, more: seq<nat>, after: seq<Op>)
    requires d >= 1 && Under(rest, d, p, more, after)
    ensures Under(ExecuteOps(p, id) + rest, d, p, [id] + more, after)
  {
    hide Under;
    LeaveUnder(p, rest, d, more, after);
    SendUnder(p, id, [Leave(p)] + rest, d + 1, more, after);
    EnterUnder(p, [Send(p, id)] + ([Leave(p)] + rest), d, [id] + more, after);
    assert ExecuteOps(p, id) + rest == [Enter(p)] + ([Send(p, id)] + ([Leave(p)] + rest));
  }

  lemma {:induction false} ReadsUnder(p: nat, ids: seq<nat>, rest: seq<Op>, d: nat, more: seq<nat>, after: seq<Op>)
    requires d >= 1 && Under(rest, d, p, more, after)
    ensures Under(ReadOps(p, ids) + rest, d, p, ids + more, after)
    decreases |ids|
  {
    hide Under, ExecuteOps;
    if ids == [] {
      assert ReadOps(p, ids) + rest == rest && ids + more == more;
    } else {
      ReadsUnder(p, ids[1..], rest, d, more, after);
      ExecuteUnder(p, ids[0], ReadOps(p, ids[1..]) + rest, d, ids[1..] + more, after);
      assert ReadOps(p, ids) + rest == ExecuteOps(p, ids[0]) + (ReadOps(p, ids[1..]) + rest);
      assert ids + more == [ids[0]] + (ids[1..] + more);
    }
  }

  lemma PollUnder(p: nat, ids: seq<nat>, rest: seq<Op>, d: nat, more: seq<nat>, after: seq<Op>)
    requires d >= 1 && Under(rest, d, p, more, after)
    ensures Under(PollOps(p, ids) + rest, d, p, ids + more, after)
  {
    hide Under, ReadOps;
    LeaveUnder(p, rest, d, more, after);
    ReadsUnder(p, ids, [Leave(p)] + rest, d + 1, more, after);
    EnterUnder(p, ReadOps(p, ids) + ([Leave(p)] + rest), d, ids + more, after);
    assert PollOps(p, ids) + rest == [Enter(p)] + (ReadOps(p, ids) + ([Leave(p)] + rest));
  }

  lemma {:induction false} MembersUnder(p: nat, members: seq<seq<nat>>, rest: seq<Op>, d: nat, after: seq<Op>)
    requires d >= 1 && Under(rest, d, p, [], after)
    ensures Under(MemberOps(p, members) + rest, d, p, Join(members), after)
    decreases |members|
  {
    hide Under, PollOps;
    if members == [] {
      assert MemberOps(p, members) + rest == rest;
    } else {
      MembersUnder(p, members[1..], rest, d, after);
      PollUnder(p, members[0], MemberOps(p, members[1..]) + rest, d, Join(members[1..]), after);
      assert MemberOps(p, members) + rest == PollOps(p, members[0]) + (MemberOps(p, members[1..]) + rest);
    }
  }

  /** A call enters its port first, makes exactly its transactions there in order, leaves, and only then collects. */
  lemma CallUnder(c: Call)
    ensures Ops(c) != [] && Ops(c)[0] == Enter(c.port)
    ensures Under(Ops(c)[1..], 1, c.port, Wires(c, c.port), Collect(c))
  {
    hide Under, ReadOps, MemberOps, Join;
    var p := c.port;
    var rest := [Leave(p)] + Collect(c);
    assert Under(Collect(c), 0, p, [], Collect(c)) by { Done(p, Collect(c)); }
    LeaveUnder(p, Collect(c), 0, [], Collect(c));
    match c
    case Execute(_, id) =>
      SendUnder(p, id, rest, 1, [], Collect(c));
      assert Ops(c)[1..] == [Send(p, id)] + rest && [id] + [] == [id];
    case PollController(_, ids) =>
      ReadsUnder(p, ids, rest, 1, [], Collect(c));
      assert Ops(c)[1..] == ReadOps(p, ids) + rest && ids + [] == ids;
    case PollGroup(_, members, _) =>
      MembersUnder(p, members, rest, 1, Collect(c));
      assert Ops(c)[1..] == MemberOps(p, members) + rest;
  }

  /** Collecting is done under the result's own lock, once the port's lock has been left; single calls collect nothing. */
  lemma CollectsAfterwards(c: Call)
    ensures Under(Ops(c)[1..], 1, c.port, Wires(c, c.port), if c.PollGroup? then [Plain(c.result), Leave(c.result)] else [])
  {
    CallUnder(c);
  }

  lemma Done(p: nat, after: seq<Op>)
    ensures Under(after, 0, p, [], after)
  {
  }

  lemma BeginKeeps(ps: Programs, s: State, t: nat)
    requires Coherent(ps, s) && Enabled(ps, s, t) && s.tasks[t].todo == []
    ensures Coherent(ps, Begin(ps, s, t))
  {
    hide Wires, Whole, Ops, Collect;
    var after := Begin(ps, s, t);
    assert TaskOk(ps, s, t);
    var c := ps[t][s.tasks[t].begun];
    CallUnder(c);
    forall u | 0 <= u < |after.tasks| ensures TaskOk(ps, after, u) { assert TaskOk(ps, s, u); }
    forall m | 0 <= m < |after.locks| ensures LockOk(ps, after, m) { assert LockOk(ps, s, m); }
  }

  lemma PushKeeps(ps: Programs, s: State, t: nat, l: nat)
    requires Coherent(ps, s) && Enabled(ps, s, t) && s.tasks[t].todo != [] && s.tasks[t].todo[0] == Enter(l)
    requires l < |s.locks| && s.locks[l].owner == Some(t)
    ensures Coherent(ps, Push(s, t, l))
  {
    hide Wires, Whole, Ops, Collect;
    var after := Push(s, t, l);
    assert LockOk(ps, s, l) && TaskOk(ps, s, t);
    forall u | 0 <= u < |after.tasks| ensures TaskOk(ps, after, u) { assert TaskOk(ps, s, u); }
    forall m | 0 <= m < |after.locks| ensures LockOk(ps, after, m) { assert LockOk(ps, s, m); }
  }

  lemma PopKeeps(ps: Programs, s: State, t: nat)
    requires Coherent(ps, s) && Enabled(ps, s, t) && s.tasks[t].todo != [] && s.tasks[t].todo[0].Leave?
    requires |s.tasks[t].frames| > 1
    ensures Coherent(ps, Pop(s, t))
  {
    hide Wires, Whole, Ops, Collect;
    var after := Pop(s, t);
    assert TaskOk(ps, s, t);
    forall u | 0 <= u < |after.tasks| ensures TaskOk(ps, after, u) { assert TaskOk(ps, s, u); }
    forall m | 0 <= m < |after.locks| ensures LockOk(ps, after, m) { assert LockOk(ps, s, m); }
  }

  lemma TransmitKeeps(ps: Programs, s: State, t: nat, l: nat, id: nat)
    requires Coherent(ps, s) && Enabled(ps, s, t) && s.tasks[t].todo != [] && s.tasks[t].todo[0] == Send(l, id)
    ensures s.tasks[t].frames != [] && s.tasks[t].frames[0].lock == l < |s.locks| && s.tasks[t].begun >= 1
    ensures Coherent(ps, Transmit(s, t, l, id))
  {
    hide Wires, Whole, Ops, Collect;
    assert TaskOk(ps, s, t);
    var after := Transmit(s, t, l, id);
    var c := ps[t][s.tasks[t].begun - 1];
    var w, k := Wires(c, l), s.tasks[t].sent;
    assert w[k..][1..] == w[k + 1..] && w[..k + 1] == w[..k] + [id];
    assert Tagged(Ticket(t, s.tasks[t].begun - 1), w[..k + 1]) == Tagged(Ticket(t, s.tasks[t].begun - 1), w[..k]) + [Sent(Ticket(t, s.tasks[t].begun - 1), id)];
    forall u | 0 <= u < |after.tasks| ensures TaskOk(ps, after, u) { assert TaskOk(ps, s, u); }
    forall m | 0 <= m < |after.locks| ensures LockOk(ps, after, m) { assert LockOk(ps, s, m); }
  }

  lemma WaitKeeps(ps: Programs, s: State, t: nat, l: nat)
    requires Coherent(ps, s) && Enabled(ps, s, t) && s.tasks[t].frames == []
    requires s.tasks[t].todo != [] && s.tasks[t].todo[0].lock == l < |s.locks|
    ensures Coherent(ps, s.(locks := s.locks[l := s.locks[l].(waiters := s.locks[l].waiters + [t])],
                            tasks := s.tasks[t := s.tasks[t].(waiting := Some(l))]))
  {
    hide Wires, Whole, Ops, Collect, Under;
    var after := s.(locks := s.locks[l := s.locks[l].(waiters := s.locks[l].waiters + [t])],
                    tasks := s.tasks[t := s.tasks[t].(waiting := Some(l))]);
    assert TaskOk(ps, s, t);
    forall u | 0 <= u < |after.tasks| ensures TaskOk(ps, after, u) { assert TaskOk(ps, s, u); }
    forall m | 0 <= m < |after.locks| ensures LockOk(ps, after, m) { assert LockOk(ps, s, m); }
  }

  lemma RequestKeeps(ps: Programs, s: State, t: nat, l: nat)
    requires Coherent(ps, s) && Enabled(ps, s, t) && s.tasks[t].frames == []
    requires s.tasks[t].todo != [] && s.tasks[t].todo[0].lock == l < |s.locks|
    requires Settled(s, l)
    ensures Coherent(ps, Request(s, t, l)) && Settled(Request(s, t, l), l) && |Request(s, t, l).locks| == |s.locks|
  {
    hide Wires, Whole, Ops, Collect, Under, Coherent;
    if s.locks[l].owner.None? { GrantKeeps(ps, s, t, l, []); } else { WaitKeeps(ps, s, t, l); }
  }

  lemma VacateKeeps(ps: Programs, s: State, t: nat, l: nat)
    requires Coherent(ps, s) && Enabled(ps, s, t) && |s.tasks[t].frames| == 1
    requires s.tasks[t].todo != [] && s.tasks[t].todo[0] == Leave(l)
    ensures l < |s.locks| && 1 <= s.tasks[t].begun <= |ps[t]| && s.locks[l].owner == Some(t) && Coherent(ps, Vacate(s, t, l))
    ensures s.tasks[t].frames[0].lock == l && s.tasks[t].todo[1..] == Afterwards(ps[t][s.tasks[t].begun - 1], l)
  {
    hide Wires, Whole, Ops, Under;
    assert TaskOk(ps, s, t);
    var n := s.tasks[t].begun - 1;
    var c, k := ps[t][n], s.tasks[t].frames[0].lock;
    LeaveEnds(s.tasks[t].todo, k, Wires(c, k)[s.tasks[t].sent..], Afterwards(c, k));
    assert LockOk(ps, s, l);
    var after := Vacate(s, t, l);
    assert Wires(c, l)[..s.tasks[t].sent] == Wires(c, l);
    WholeSnoc(ps, s.locks[l].closed, Ticket(t, n), l);
    forall u | 0 <= u < |after.tasks| ensures TaskOk(ps, after, u) { assert TaskOk(ps, s, u); }
    forall m | 0 <= m < |after.locks| ensures LockOk(ps, after, m) { assert LockOk(ps, s, m); }
  }

  lemma LeaveEnds(ops: seq<Op>, l: nat, ids: seq<nat>, after: seq<Op>)
    requires Under(ops, 1, l, ids, after) && ops[0].Leave?
    ensures ops[0].lock == l && ids == [] && ops[1..] == after
  {
    assert Under(ops[1..], 0, l, ids, after);
  }

  /** `t` can be granted the free lock `l`, leaving `waiters`: it asks now, or waits in front. */
  predicate Grantable(ps: Programs, s: State, t: nat, l: nat, waiters: seq<nat>)
  {
    && Coherent(ps, s) && t < |s.tasks| && s.tasks[t].frames == []
    && s.tasks[t].todo != [] && s.tasks[t].todo[0].lock == l < |s.locks| && s.locks[l].owner.None?
    && if s.tasks[t].waiting.None? then waiters == s.locks[l].waiters
       else s.locks[l].waiters != [] && t == s.locks[l].waiters[0] && waiters == s.locks[l].waiters[1..]
  }

  lemma GrantKeepsTask(ps: Programs, s: State, t: nat, l: nat, waiters: seq<nat>, u: nat)
    requires Grantable(ps, s, t, l, waiters) && u < |s.tasks|
    ensures TaskOk(ps, Grant(s, t, l, waiters), u)
  {
    hide Whole, Ops, Under, Wires, Collect, Afterwards;
    assert TaskOk(ps, s, t) && LockOk(ps, s, l) && TaskOk(ps, s, u);
    if u == t {
      var c := ps[t][s.tasks[t].begun - 1];
      GrantUnder(c, s.tasks[t].todo);
      assert Wires(c, l)[0..] == Wires(c, l);
    } else if s.tasks[t].waiting.Some? && s.tasks[u].waiting == Some(l) {
      assert s.locks[l].waiters == [t] + waiters;
    }
  }

  lemma GrantKeeps(ps: Programs, s: State, t: nat, l: nat, waiters: seq<nat>)
    requires Grantable(ps, s, t, l, waiters)
    ensures Coherent(ps, Grant(s, t, l, waiters))
  {
    hide Whole, Ops, Under, Wires, Collect, Afterwards;
    var after := Grant(s, t, l, waiters);
    assert TaskOk(ps, s, t);
    forall u | 0 <= u < |after.tasks| ensures TaskOk(ps, after, u) { GrantKeepsTask(ps, s, t, l, waiters, u); }
    forall m | 0 <= m < |after.locks| ensures LockOk(ps, after, m) { assert LockOk(ps, s, m); }
  }

  lemma GrantUnder(c: Call, todo: seq<Op>)
    requires todo != [] && (todo == Ops(c) || todo == Collect(c)) && (c.PollGroup? ==> c.result != c.port)
    ensures var l := todo[0].lock;
            && (l == c.port || (c.PollGroup? && l == c.result))
            && Under(todo[1..], 1, l, Wires(c, l), Afterwards(c, l))
  {
    hide Ops, Under;
    CallUnder(c);
    if todo == Collect(c) {
      Done(c.result, []);
      LeaveUnder(c.result, [], 0, [], []);
      assert todo[1..] == [Leave(c.result)] + [];
    }
  }

  /** Whether the next operation of `t` gives lock `l` up. */
  predicate Releases(s: State, t: nat, l: nat)
  {
    t < |s.tasks| && s.tasks[t].todo != [] && s.tasks[t].todo[0] == Leave(l)
    && s.tasks[t].frames != [] && s.tasks[t].frames[|s.tasks[t].frames| - 1].Acquired?
  }

  /** Every step of every task keeps the invariant. */
  lemma StepKeeps(ps: Programs, s: State, t: nat)
    requires Inv(ps, s) && Enabled(ps, s, t)
    ensures Inv(ps, Step(ps, s, t)) && |Step(ps, s, t).locks| == |s.locks|
  {
    hide Under, Wires, Whole, Ops, Collect, Coherent;
    var task := s.tasks[t];
    FrameOf(ps, s, t);
    if task.todo == [] {
      BeginKeeps(ps, s, t);
    } else {
      var l := task.todo[0].lock;
      assert Settled(s, l);
      match task.todo[0] {
        case Leave(_) =>
          if |task.frames| > 1 {
            PopKeeps(ps, s, t);
          } else {
            VacateKeeps(ps, s, t, l);
            HandOverKeeps(ps, Vacate(s, t, l), l);
          }
        case Send(_, id) => TransmitKeeps(ps, s, t, l, id);
        case Enter(_) => if s.locks[l].owner == Some(t) { PushKeeps(ps, s, t, l); } else { RequestKeeps(ps, s, t, l); }
        case Plain(_) => RequestKeeps(ps, s, t, l);
      }
    }
    var after := Step(ps, s, t);
    forall m | 0 <= m < |s.locks| ensures m < |after.locks| && Settled(after, m) { assert Settled(s, m); }
  }

  /** A running task with work left is inside the lock its next operation names, or about to ask for it. */
  lemma FrameOf(ps: Programs, s: State, t: nat)
    requires Coherent(ps, s) && Enabled(ps, s, t)
    ensures var task := s.tasks[t];
      if task.todo == [] then task.frames == []
      else
        && task.todo[0].lock < |s.locks|
        && (task.todo[0].Plain? ==> task.frames == [])
        && (task.frames == [] ==> task.todo[0].Enter? || task.todo[0].Plain?)
        && (task.frames != [] ==> s.locks[task.todo[0].lock].owner == Some(t))
        && (task.frames != [] ==> (task.frames[|task.frames| - 1].Reused? <==> |task.frames| > 1))
  {
    hide Wires, Ops, Collect;
    assert TaskOk(ps, s, t);
  }

  lemma HandOverKeeps(ps: Programs, s: State, l: nat)
    requires Coherent(ps, s) && l < |s.locks| && s.locks[l].owner.None?
    ensures forall w <- s.locks[l].waiters :: w < |s.tasks|
    ensures Coherent(ps, HandOver(s, l)) && Settled(HandOver(s, l), l) && |HandOver(s, l).locks| == |s.locks|
    ensures forall m :: 0 <= m < |s.locks| && m != l ==> HandOver(s, l).locks[m] == s.locks[m]
  {
    hide Under, Wires, Whole, Ops, Collect;
    assert LockOk(ps, s, l);
    var waiters := s.locks[l].waiters;
    if waiters != [] {
      assert TaskOk(ps, s, waiters[0]);
      GrantKeeps(ps, s, waiters[0], l, waiters[1..]);
    }
  }

  // ---------------------------------------------------------------- runs

  /** A run picks any task at each step; picking one that cannot move changes nothing. */
  function Next(ps: Programs, s: State, t: nat): State
    requires Inv(ps, s)
  {
    if Enabled(ps, s, t) then Step(ps, s, t) else s
  }

  function Run(ps: Programs, s: State, schedule: seq<nat>): State
    requires Inv(ps, s)
    decreases |schedule|
  {
    if schedule == [] then s
    else
      assert Inv(ps, Next(ps, s, schedule[0])) by { if Enabled(ps, s, schedule[0]) { StepKeeps(ps, s, schedule[0]); } }
      Run(ps, Next(ps, s, schedule[0]), schedule[1..])
  }

  lemma InitialInv(ps: Programs, n: nat)
    requires WellFormed(ps, n)
    ensures Inv(ps, Initial(ps, n))
  {
  }

  lemma {:induction false} RunKeeps(ps: Programs, s: State, schedule: seq<nat>)
    requires Inv(ps, s)
    ensures Inv(ps, Run(ps, s, schedule)) && |Run(ps, s, schedule).locks| == |s.locks|
    decreases |schedule|
  {
    hide Inv, Step;
    if schedule != [] {
      if Enabled(ps, s, schedule[0]) { StepKeeps(ps, s, schedule[0]); }
      RunKeeps(ps, Next(ps, s, schedule[0]), schedule[1..]);
    }
  }

  /** A reachable state: `n` locks, tasks running the programs, interleaved by any schedule. */
  function Reached(ps: Programs, n: nat, schedule: seq<nat>): (s: State)
    requires WellFormed(ps, n)
    ensures Inv(ps, s) && |s.locks| == n
  {
    InitialInv(ps, n);
    RunKeeps(ps, Initial(ps, n), schedule);
    Run(ps, Initial(ps, n), schedule)
  }

  // ---------------------------------------------------------------- who drives a port

  predicate AboutToSend(s: State, t: nat, l: nat)
  {
    t < |s.tasks| && s.tasks[t].waiting.None? && s.tasks[t].todo != [] && s.tasks[t].todo[0].Send? && s.tasks[t].todo[0].lock == l
  }

  /** However tasks interleave, only the owner of a port's lock can transmit on it, and never two tasks at once. */
  lemma MutualExclusion(ps: Programs, n: nat, schedule: seq<nat>, t: nat, u: nat, l: nat)
    requires WellFormed(ps, n) && AboutToSend(Reached(ps, n, schedule), t, l)
    ensures l < n && Reached(ps, n, schedule).locks[l].owner == Some(t)
    ensures AboutToSend(Reached(ps, n, schedule), u, l) ==> u == t
  {
    hide Reached, Run, Step, Wires, Ops, Collect, Whole, Under;
    var s := Reached(ps, n, schedule);
    FrameOf(ps, s, t);
    if AboutToSend(s, u, l) { FrameOf(ps, s, u); }
  }

  /** A waiting task waits for a task that holds the lock and is not waiting itself, so no task waits for itself and no cycle of waits exists. */
  lemma NoWaitCycle(ps: Programs, n: nat, schedule: seq<nat>, t: nat)
    requires WellFormed(ps, n) && t < |ps| && Reached(ps, n, schedule).tasks[t].waiting.Some?
    ensures var s := Reached(ps, n, schedule);
      && s.tasks[t].frames == []
      && var l := s.tasks[t].waiting.value;
         && l < n && s.locks[l].owner.Some?
         && var h := s.locks[l].owner.value;
            h < |ps| && h != t && s.tasks[h].waiting.None? && Enabled(ps, s, h)
  {
    hide Reached, Run, Step, Wires, Ops, Collect, Whole;
    var s := Reached(ps, n, schedule);
    assert TaskOk(ps, s, t);
    var l := s.tasks[t].waiting.value;
    assert Settled(s, l) && LockOk(ps, s, l);
    assert TaskOk(ps, s, s.locks[l].owner.value);
  }

  predicate Finished(ps: Programs, s: State)
    requires |s.tasks| == |ps|
  {
    forall t :: 0 <= t < |ps| ==> s.tasks[t].todo == [] && s.tasks[t].begun == |ps[t]|
  }

  /** As long as some call is unfinished, some task can move. */
  lemma NoDeadlock(ps: Programs, n: nat, schedule: seq<nat>)
    requires WellFormed(ps, n)
    ensures Finished(ps, Reached(ps, n, schedule)) <==> forall t: nat :: !Enabled(ps, Reached(ps, n, schedule), t)
  {
    hide Reached, Run, Step, Wires, Ops, Collect, Whole, Under;
    var s := Reached(ps, n, schedule);
    if t :| 0 <= t < |ps| && !(s.tasks[t].todo == [] && s.tasks[t].begun == |ps[t]|) {
      assert TaskOk(ps, s, t);
      if s.tasks[t].waiting.Some? {
        NoWaitCycle(ps, n, schedule, t);
      } else {
        assert Enabled(ps, s, t);
      }
    } else {
      forall t: nat ensures !Enabled(ps, s, t) { if t < |ps| { assert s.tasks[t].todo == []; } }
    }
  }

  // ---------------------------------------------------------------- every run ends

  function Ahead(calls: seq<Call>, k: nat): nat
    decreases if k < |calls| then |calls| - k else 0
  {
    if k < |calls| then 2 * |Ops(calls[k])| + 1 + Ahead(calls, k + 1) else 0
  }

  function TaskWork(calls: seq<Call>, task: Task): nat
  {
    Ahead(calls, task.begun) + 2 * |task.todo| + if task.waiting.None? then 1 else 0
  }

  /** The work left to the first `k` tasks. */
  function Work(ps: Programs, tasks: seq<Task>, k: nat): nat
    requires k <= |ps| == |tasks|
  {
    if k == 0 then 0 else Work(ps, tasks, k - 1) + TaskWork(ps[k - 1], tasks[k - 1])
  }

  lemma {:induction false} WorkOfUpdate(ps: Programs, tasks: seq<Task>, t: nat, task: Task, k: nat)
    requires k <= |ps| == |tasks| && t < |ps|
    ensures Work(ps, tasks[t := task], k)
         == Work(ps, tasks, k) + if t < k then TaskWork(ps[t], task) - TaskWork(ps[t], tasks[t]) else 0
  {
    hide TaskWork;
    if k > 0 { WorkOfUpdate(ps, tasks, t, task, k - 1); }
  }

  lemma GrantWorks(ps: Programs, s: State, t: nat, l: nat, waiters: seq<nat>)
    requires t < |s.tasks| == |ps| && l < |s.locks| && s.tasks[t].todo != []
    ensures Work(ps, Grant(s, t, l, waiters).tasks, |ps|) < Work(ps, s.tasks, |ps|)
  {
    WorkOfUpdate(ps, s.tasks, t, Grant(s, t, l, waiters).tasks[t], |ps|);
  }

  /** Every step uses work up. */
  lemma StepWorks(ps: Programs, s: State, t: nat)
    requires Inv(ps, s) && Enabled(ps, s, t)
    ensures |Step(ps, s, t).tasks| == |ps| && Work(ps, Step(ps, s, t).tasks, |ps|) < Work(ps, s.tasks, |ps|)
  {
    hide Work, Under, Wires, Ops, Collect, Whole;
    FrameOf(ps, s, t);
    assert TaskOk(ps, s, t);
    if s.tasks[t].todo != [] && s.tasks[t].todo[0].Leave? && |s.tasks[t].frames| <= 1 {
      var l := s.tasks[t].todo[0].lock;
      VacateKeeps(ps, s, t, l);
      var given := Vacate(s, t, l);
      WorkOfUpdate(ps, s.tasks, t, given.tasks[t], |ps|);
      HandOverKeeps(ps, given, l);
      assert LockOk(ps, given, l);
      if given.locks[l].waiters != [] {
        assert TaskOk(ps, given, given.locks[l].waiters[0]);
        GrantWorks(ps, given, given.locks[l].waiters[0], l, given.locks[l].waiters[1..]);
      }
    } else {
      var after := Step(ps, s, t);
      WorkOfUpdate(ps, s.tasks, t, after.tasks[t], |ps|);
      assert after.tasks == s.tasks[t := after.tasks[t]];
    }
  }

  /** Every pick of a schedule can move. */
  predicate Busy(ps: Programs, s: State, schedule: seq<nat>)
    requires Inv(ps, s)
    decreases |schedule|
  {
    schedule != [] ==>
      && Enabled(ps, s, schedule[0])
      && (StepKeeps(ps, s, schedule[0]); Busy(ps, Step(ps, s, schedule[0]), schedule[1..]))
  }

  /** No run goes on for ever: the steps taken are at most the work there was to do. */
  lemma {:induction false} RunsEnd(ps: Programs, s: State, schedule: seq<nat>)
    requires Inv(ps, s) && Busy(ps, s, schedule)
    ensures |schedule| <= Work(ps, s.tasks, |ps|)
    decreases |schedule|
  {
    hide Inv, Step, Work;
    if schedule != [] {
      StepKeeps(ps, s, schedule[0]);
      StepWorks(ps, s, schedule[0]);
      RunsEnd(ps, Step(ps, s, schedule[0]), schedule[1..]);
    }
  }

  // ---------------------------------------------------------------- waiters are served in turn

  /** A waiter moves up exactly when the lock is released, and gets it from the front. */
  lemma MovesUp(ps: Programs, s: State, t: nat, l: nat, k: nat)
    requires Inv(ps, s) && Enabled(ps, s, t) && l < |s.locks| && k < |s.locks[l].waiters|
    ensures var after, w := Step(ps, s, t), s.locks[l].waiters[k];
      && |after.locks| == |s.locks|
      && if !Releases(s, t, l) then k < |after.locks[l].waiters| && after.locks[l].waiters[k] == w
         else if k == 0 then after.locks[l].owner == Some(w)
         else k - 1 < |after.locks[l].waiters| && after.locks[l].waiters[k - 1] == w
  {
    hide Under, Wires, Ops, Collect, Whole;
    StepKeeps(ps, s, t);
    FrameOf(ps, s, t);
    assert Settled(s, l);
    if s.tasks[t].todo != [] && s.tasks[t].todo[0].Leave? && |s.tasks[t].frames| <= 1 {
      var m := s.tasks[t].todo[0].lock;
      VacateKeeps(ps, s, t, m);
      HandOverKeeps(ps, Vacate(s, t, m), m);
    }
  }

  /** How many steps of a schedule release lock `l`. */
  function ReleasesIn(ps: Programs, s: State, schedule: seq<nat>, l: nat): nat
    requires Inv(ps, s)
    decreases |schedule|
  {
    if schedule == [] then 0
    else
      assert Inv(ps, Next(ps, s, schedule[0])) by { if Enabled(ps, s, schedule[0]) { StepKeeps(ps, s, schedule[0]); } }
      (if Enabled(ps, s, schedule[0]) && Releases(s, schedule[0], l) then 1 else 0)
      + ReleasesIn(ps, Next(ps, s, schedule[0]), schedule[1..], l)
  }

  /**
   * FIFO service: whoever is `k`-th in a queue is still waiting, that much closer, until `k` releases
   * have happened, and owns the lock with the next one; later arrivals never overtake.
   */
  lemma {:induction false} ServedInTurn(ps: Programs, s: State, schedule: seq<nat>, l: nat, k: nat)
    requires Inv(ps, s) && l < |s.locks| && k < |s.locks[l].waiters|
    ensures ReleasesIn(ps, s, schedule, l) <= k ==>
      var after := Run(ps, s, schedule);
      && |after.locks| == |s.locks|
      && k - ReleasesIn(ps, s, schedule, l) < |after.locks[l].waiters|
      && after.locks[l].waiters[k - ReleasesIn(ps, s, schedule, l)] == s.locks[l].waiters[k]
    ensures schedule != [] && ReleasesIn(ps, s, schedule[..|schedule| - 1], l) == k && ReleasesIn(ps, s, schedule, l) == k + 1 ==>
      var after := Run(ps, s, schedule);
      |after.locks| == |s.locks| && after.locks[l].owner == Some(s.locks[l].waiters[k])
    decreases |schedule|
  {
    hide Inv, Step, Enabled, Releases;
    if schedule != [] {
      var t, rest := schedule[0], schedule[1..];
      var next := Next(ps, s, t);
      if Enabled(ps, s, t) { StepKeeps(ps, s, t); MovesUp(ps, s, t, l, k); }
      if |schedule| > 1 {
        var front := schedule[..|schedule| - 1];
        assert front[0] == t && front[1..] == rest[..|rest| - 1];
      }
      if !(Enabled(ps, s, t) && Releases(s, t, l)) {
        ServedInTurn(ps, next, rest, l, k);
      } else if k > 0 {
        ServedInTurn(ps, next, rest, l, k - 1);
      }
    }
  }

  // ---------------------------------------------------------------- every batch is whole, and happens once

  /** The latest call of task `t` has finished its section under lock `l`. */
  predicate Behind(ps: Programs, s: State, t: nat, l: nat)
    requires t < |s.tasks| == |ps| && 1 <= s.tasks[t].begun <= |ps[t]|
  {
    var task := s.tasks[t];
    var c := ps[t][task.begun - 1];
    if l != c.port then task.todo == []
    else if task.frames == [] then task.todo != Ops(c)
    else task.frames[0].lock != l
  }

  /** A lock has closed no call twice, and none it has not finished. */
  predicate ClosedOnce(ps: Programs, s: State, l: nat)
    requires |s.tasks| == |ps| && l < |s.locks|
  {
    var closed := s.locks[l].closed;
    && (forall i, j :: 0 <= i < j < |closed| ==> closed[i] != closed[j])
    && (forall i :: 0 <= i < |closed| ==>
          var tk := closed[i];
          && tk.task < |ps| && tk.call < s.tasks[tk.task].begun <= |ps[tk.task]|
          && (tk.call == s.tasks[tk.task].begun - 1 ==> Behind(ps, s, tk.task, l)))
  }

  /** The port of every finished call has closed it. */
  predicate AllClosed(ps: Programs, s: State, t: nat)
    requires t < |s.tasks| == |ps|
  {
    s.tasks[t].begun <= |ps[t]| &&
    forall c :: 0 <= c < s.tasks[t].begun && (c == s.tasks[t].begun - 1 ==> Behind(ps, s, t, ps[t][c].port)) ==>
      ps[t][c].port < |s.locks| && Ticket(t, c) in s.locks[ps[t][c].port].closed
  }

  predicate Once(ps: Programs, s: State)
    requires |s.tasks| == |ps|
  {
    && (forall l :: 0 <= l < |s.locks| ==> ClosedOnce(ps, s, l))
    && (forall t :: 0 <= t < |s.tasks| ==> AllClosed(ps, s, t))
  }

  /** Two states between which no section has ended and no call has begun. */
  predicate SameSections(ps: Programs, s: State, z: State)
    requires |s.tasks| == |ps|
  {
    && |z.tasks| == |s.tasks| && |z.locks| == |s.locks|
    && (forall l :: 0 <= l < |s.locks| ==> z.locks[l].closed == s.locks[l].closed)
    && (forall t :: 0 <= t < |s.tasks| ==> z.tasks[t].begun == s.tasks[t].begun && z.tasks[t].begun <= |ps[t]|)
    && (forall t, l :: 0 <= t < |s.tasks| && s.tasks[t].begun >= 1 && 0 <= l < |s.locks| ==>
          && (Behind(ps, s, t, l) ==> Behind(ps, z, t, l))
          && (l == ps[t][s.tasks[t].begun - 1].port ==> (Behind(ps, z, t, l) ==> Behind(ps, s, t, l))))
  }

  lemma SameSectionsOnce(ps: Programs, s: State, z: State)
    requires |s.tasks| == |ps| && WellFormed(ps, |s.locks|) && Once(ps, s) && SameSections(ps, s, z)
    ensures Once(ps, z)
  {
    hide Behind;
    forall l | 0 <= l < |z.locks| ensures ClosedOnce(ps, z, l) { assert ClosedOnce(ps, s, l); }
    forall t | 0 <= t < |z.tasks| ensures AllClosed(ps, z, t) { assert AllClosed(ps, s, t); }
  }

  lemma TaskFacts(ps: Programs, s: State, t: nat)
    requires Coherent(ps, s) && t < |s.tasks|
    ensures |s.tasks| == |ps| && TaskOk(ps, s, t) && WellFormed(ps, |s.locks|)
    ensures forall u :: 0 <= u < |s.tasks| ==> s.tasks[u].begun <= |ps[u]|
    ensures s.tasks[t].todo != [] && s.tasks[t].todo == Collect(ps[t][s.tasks[t].begun - 1]) ==>
              s.tasks[t].todo[0].lock != ps[t][s.tasks[t].begun - 1].port
  {
    assert TaskOk(ps, s, t);
    forall u | 0 <= u < |s.tasks| ensures s.tasks[u].begun <= |ps[u]| { assert TaskOk(ps, s, u); }
  }

  lemma GrantOnce(ps: Programs, s: State, t: nat, l: nat, waiters: seq<nat>)
    requires Grantable(ps, s, t, l, waiters) && Once(ps, s)
    ensures Once(ps, Grant(s, t, l, waiters))
  {
    hide Under, Wires, Whole, Once, Coherent, Collect, Ops;
    TaskFacts(ps, s, t);
    CallUnder(ps[t][s.tasks[t].begun - 1]);
    SameSectionsOnce(ps, s, Grant(s, t, l, waiters));
  }

  lemma BeginOnce(ps: Programs, s: State, t: nat)
    requires Coherent(ps, s) && Once(ps, s) && Enabled(ps, s, t) && s.tasks[t].todo == []
    ensures Once(ps, Begin(ps, s, t))
  {
    hide Wires, Whole, Ops;
    var z := Begin(ps, s, t);
    assert TaskOk(ps, s, t) && s.tasks[t].frames == [];
    if s.tasks[t].begun >= 1 { CallUnder(ps[t][s.tasks[t].begun - 1]); }
    forall l | 0 <= l < |z.locks| ensures ClosedOnce(ps, z, l) { assert ClosedOnce(ps, s, l); }
    forall u | 0 <= u < |z.tasks| ensures AllClosed(ps, z, u) { assert AllClosed(ps, s, u); }
  }

  lemma VacateOnce(ps: Programs, s: State, t: nat, l: nat)
    requires Coherent(ps, s) && Once(ps, s) && Enabled(ps, s, t) && |s.tasks[t].frames| == 1
    requires s.tasks[t].todo != [] && s.tasks[t].todo[0] == Leave(l)
    ensures l < |s.locks| && s.tasks[t].begun >= 1 && Once(ps, Vacate(s, t, l))
  {
    hide Wires, Whole, Ops, Under, Coherent;
    VacateKeeps(ps, s, t, l);
    var z, n := Vacate(s, t, l), s.tasks[t].begun - 1;
    var c := ps[t][n];
    CallUnder(c);
    forall m | 0 <= m < |z.locks| ensures ClosedOnce(ps, z, m) { assert ClosedOnce(ps, s, m); }
    hide ClosedOnce;
    forall u | 0 <= u < |z.tasks| ensures AllClosed(ps, z, u) { assert AllClosed(ps, s, u); }
  }

  lemma StepOnce(ps: Programs, s: State, t: nat)
    requires Inv(ps, s) && Once(ps, s) && Enabled(ps, s, t)
    ensures |Step(ps, s, t).tasks| == |ps| && Once(ps, Step(ps, s, t))
  {
    hide Wires, Whole, Ops, Once, Collect;
    var task := s.tasks[t];
    FrameOf(ps, s, t);
    assert TaskOk(ps, s, t);
    if task.todo == [] {
      BeginOnce(ps, s, t);
    } else if task.todo[0].Leave? && |task.frames| <= 1 {
      var l := task.todo[0].lock;
      VacateOnce(ps, s, t, l);
      VacateKeeps(ps, s, t, l);
      var given := Vacate(s, t, l);
      assert LockOk(ps, given, l);
      if given.locks[l].waiters != [] {
        assert TaskOk(ps, given, given.locks[l].waiters[0]);
        GrantOnce(ps, given, given.locks[l].waiters[0], l, given.locks[l].waiters[1..]);
      }
    } else if !task.todo[0].Send? && !task.todo[0].Leave? && s.locks[task.todo[0].lock].owner.None? {
      assert Settled(s, task.todo[0].lock);
      GrantOnce(ps, s, t, task.todo[0].lock, []);
    } else {
      forall u | 0 <= u < |s.tasks| ensures s.tasks[u].begun <= |ps[u]| { assert TaskOk(ps, s, u); }
      assert LockOk(ps, s, task.todo[0].lock);
      SameSectionsOnce(ps, s, Step(ps, s, t));
    }
  }

  lemma {:induction false} RunOnce(ps: Programs, s: State, schedule: seq<nat>)
    requires Inv(ps, s) && Once(ps, s)
    ensures |Run(ps, s, schedule).tasks| == |ps| && Once(ps, Run(ps, s, schedule))
    decreases |schedule|
  {
    hide Step, Once;
    if schedule != [] {
      if Enabled(ps, s, schedule[0]) { StepKeeps(ps, s, schedule[0]); StepOnce(ps, s, schedule[0]); }
      RunOnce(ps, Next(ps, s, schedule[0]), schedule[1..]);
    }
  }

  lemma ReachedOnce(ps: Programs, n: nat, schedule: seq<nat>)
    requires WellFormed(ps, n)
    ensures Once(ps, Reached(ps, n, schedule))
  {
    hide Run;
    InitialInv(ps, n);
    RunOnce(ps, Initial(ps, n), schedule);
  }

  /**
   * The wire of a lock is the transactions of whole calls, one call after the other, followed by those
   * its present owner has made so far; no call is closed twice.
   */
  lemma WireIsSerial(ps: Programs, n: nat, schedule: seq<nat>, l: nat)
    requires WellFormed(ps, n) && l < n
    ensures var s := Reached(ps, n, schedule);
      var lock := s.locks[l];
      && (forall i, j :: 0 <= i < j < |lock.closed| ==> lock.closed[i] != lock.closed[j])
      && (lock.owner.None? ==> lock.wire == Whole(ps, lock.closed, l))
      && (lock.owner.Some? ==>
            var t := lock.owner.value;
            && t < |ps| && 1 <= s.tasks[t].begun <= |ps[t]|
            && var tk := Ticket(t, s.tasks[t].begun - 1);
               var wires := Wires(ps[t][tk.call], l);
               && tk !in lock.closed && s.tasks[t].sent <= |wires|
               && lock.wire == Whole(ps, lock.closed, l) + Tagged(tk, wires[..s.tasks[t].sent]))
  {
    hide Reached, Run, Step, Wires, Ops, Collect, Whole;
    ReachedOnce(ps, n, schedule);
    var s := Reached(ps, n, schedule);
    assert LockOk(ps, s, l) && ClosedOnce(ps, s, l);
    if s.locks[l].owner.Some? { assert TaskOk(ps, s, s.locks[l].owner.value); }
  }

  lemma {:induction false} WholeTickets(ps: Programs, closed: seq<Ticket>, l: nat)
    ensures forall i :: 0 <= i < |Whole(ps, closed, l)| ==> Whole(ps, closed, l)[i].tk in closed
  {
    hide Wires;
    if closed != [] { WholeTickets(ps, closed[..|closed| - 1], l); }
  }

  /** All transactions of one call lie next to each other. */
  predicate Unbroken(wire: seq<Sent>)
  {
    forall i, k, j :: 0 <= i <= k <= j < |wire| && wire[i].tk == wire[j].tk ==> wire[k].tk == wire[i].tk
  }

  lemma UnbrokenAppend(wire: seq<Sent>, tk: Ticket, ids: seq<nat>)
    requires Unbroken(wire) && forall i :: 0 <= i < |wire| ==> wire[i].tk != tk
    ensures Unbroken(wire + Tagged(tk, ids))
  {
  }

  lemma {:induction false} WholeUnbroken(ps: Programs, closed: seq<Ticket>, l: nat)
    requires forall i, j :: 0 <= i < j < |closed| ==> closed[i] != closed[j]
    ensures Unbroken(Whole(ps, closed, l))
  {
    hide Wires, Unbroken, Tagged;
    if closed == [] {
      UnbrokenNil();
    } else {
      var front, tk := closed[..|closed| - 1], closed[|closed| - 1];
      WholeUnbroken(ps, front, l);
      WholeTickets(ps, front, l);
      if tk.task < |ps| && tk.call < |ps[tk.task]| {
        UnbrokenAppend(Whole(ps, front, l), tk, Wires(ps[tk.task][tk.call], l));
      } else {
        assert Whole(ps, closed, l) == Whole(ps, front, l);
      }
    }
  }

  lemma UnbrokenNil()
    ensures Unbroken([])
  {
  }

  /** Batch contiguity: between two transactions of one call or batch no other transaction is on that port's wire. */
  lemma BatchesAreContiguous(ps: Programs, n: nat, schedule: seq<nat>, l: nat)
    requires WellFormed(ps, n) && l < n
    ensures Unbroken(Reached(ps, n, schedule).locks[l].wire)
  {
    hide Reached, Whole, Wires, Unbroken, Tagged;
    var s := Reached(ps, n, schedule);
    var lock := s.locks[l];
    WireIsSerial(ps, n, schedule, l);
    WholeUnbroken(ps, lock.closed, l);
    WholeTickets(ps, lock.closed, l);
    if lock.owner.Some? {
      var t := lock.owner.value;
      var tk := Ticket(t, s.tasks[t].begun - 1);
      UnbrokenAppend(Whole(ps, lock.closed, l), tk, Wires(ps[t][tk.call], l)[..s.tasks[t].sent]);
    }
  }

  lemma OwnerHasWork(ps: Programs, s: State, l: nat)
    requires Coherent(ps, s) && l < |s.locks| && s.locks[l].owner.Some?
    ensures s.locks[l].owner.value < |s.tasks| && s.tasks[s.locks[l].owner.value].todo != []
  {
    hide Wires, Collect, Ops, Whole;
    assert LockOk(ps, s, l) && TaskOk(ps, s, s.locks[l].owner.value);
  }

  /** When all tasks are done every lock is free, and each call has been carried out whole and once on its port. */
  lemma AllServed(ps: Programs, n: nat, schedule: seq<nat>, t: nat, c: nat)
    requires WellFormed(ps, n) && Finished(ps, Reached(ps, n, schedule)) && t < |ps| && c < |ps[t]|
    ensures var p := ps[t][c].port;
      && p < n
      && var lock := Reached(ps, n, schedule).locks[p];
         && lock.owner.None? && lock.wire == Whole(ps, lock.closed, p) && Ticket(t, c) in lock.closed
         && (forall i, j :: 0 <= i < j < |lock.closed| ==> lock.closed[i] != lock.closed[j])
  {
    hide Reached, Run, Step, Wires, Collect, Whole, Under;
    var s := Reached(ps, n, schedule);
    var p := ps[t][c].port;
    if s.locks[p].owner.Some? { OwnerHasWork(ps, s, p); }
    ReachedOnce(ps, n, schedule);
    assert AllClosed(ps, s, t) && TaskOk(ps, s, t) && LockOk(ps, s, p) && ClosedOnce(ps, s, p);
    CallUnder(ps[t][s.tasks[t].begun - 1]);
  }
}
