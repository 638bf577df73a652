/**
 The live counters and the wake-up of the phone-home loop (agent/stats.go,
 agent/decoders.go, agent/main.go) as an interleaving of atomic steps.

 Any number of threads run `setLink`, `addBytes` and `setActive`; one loop drains
 the capacity-1 channel and reads the counters.  A step is one atomic access.
 */
module Stats {

  /** A 32-bit mask, as the set of the bits that are one. */
  type Mask = set<nat>

  /** One call of `setLink`: raise or drop the link bits of `mask`. */
  datatype LinkOp = LinkOp(mask: Mask, up: bool)

  function Apply(links: Mask, op: LinkOp): Mask {
    if op.up then links + op.mask else links - op.mask
  }

  /** Where a thread stands. */
  datatype Pc =
    | Idle
    | Looping(op: LinkOp)                                 // about to load `links`
    | Loaded(op: LinkOp, seen: Mask)                      // about to compare and swap
    | Swapped(seen: Mask, next: Mask, at: nat)            // swapped as call number `at`, about to store the flag
    | Stored(edge: bool)                                  // flag stored, about to notify on an edge
    | Counted(first: bool)                                // bytes added, about to notify if they were the first
    | Published(changed: bool)                            // decoder list replaced, about to notify on a change

  /** Where the phone-home loop stands. */
  datatype Loop = Waiting | Drained | AtBytes | AtFlag | AtActive

  /** The memory the threads and the loop share, with what an observer records about it. */
  datatype Shared = Shared(
    links: Mask, connected: bool, bytesFed: nat, active: nat, token: bool, loop: Loop,
    reported: bool,                                       // the flag as the last beat read it
    readBytes: nat, readActive: nat,                      // the byte count and decoder list as the last beat read them
    history: seq<LinkOp>,                                 // calls of setLink in the order they took effect
    notified: nat,                                        // notifications sent by setLink
    storedAt: nat,                                        // number of the call that stored the flag last
    linkEdge: bool, bytesEdge: bool, activeEdge: bool)    // an edge stored and not yet read by a beat

  datatype State = State(sh: Shared, threads: map<nat, Pc>)

  /** What a thread can do next. */
  datatype Action =
    | CallSetLink(op: LinkOp) | Load | CompareAndSwap | StoreFlag | NotifyLink
    | AddBytes(n: nat) | NotifyBytes
    | SetActive(v: nat) | NotifyActive

  /** What the loop can do next: take the token, be woken by the ticker, sit out the delay, read the counters. */
  datatype LoopAction = Take | Tick | Timer | ReadBytes | ReadFlag | ReadActive

  datatype Step = ByThread(t: nat, a: Action) | ByLoop(l: LoopAction)

  const INITIAL: State :=
    State(Shared({}, false, 0, 0, false, AtBytes, false, 0, 0, [], 0, 0, false, false, false), map[])

  function PcOf(s: State, t: nat): Pc {
    if t in s.threads then s.threads[t] else Idle
  }

  predicate CanMove(pc: Pc, a: Action) {
    match a
    case CallSetLink(_) => pc.Idle?
    case Load => pc.Looping?
    case CompareAndSwap => pc.Loaded?
    case StoreFlag => pc.Swapped?
    case NotifyLink => pc.Stored?
    case AddBytes(n) => pc.Idle? && n > 0
    case NotifyBytes => pc.Counted?
    case SetActive(_) => pc.Idle?
    case NotifyActive => pc.Published?
  }

  predicate CanLoop(sh: Shared, l: LoopAction) {
    match l
    case Take => sh.loop.Waiting? && sh.token
    case Tick => sh.loop.Waiting?
    case Timer => sh.loop.Drained?
    case ReadBytes => sh.loop.AtBytes?
    case ReadFlag => sh.loop.AtFlag?
    case ReadActive => sh.loop.AtActive?
  }

  predicate Enabled(s: State, step: Step) {
    match step
    case ByThread(t, a) => CanMove(PcOf(s, t), a)
    case ByLoop(l) => CanLoop(s.sh, l)
  }

  predicate IsEdge(seen: Mask, next: Mask) {
    (seen != {}) != (next != {})
  }

  /** The shared memory and the thread's place after one atomic access. */
  function Move(sh: Shared, pc: Pc, a: Action): (Shared, Pc)
    requires CanMove(pc, a)
  {
    match a
    case CallSetLink(op) => (sh, Looping(op))
    case Load =>
      if Apply(sh.links, pc.op) == sh.links then (sh.(history := sh.history + [pc.op]), Idle)
      else (sh, Loaded(pc.op, sh.links))
    case CompareAndSwap =>
      var next := Apply(pc.seen, pc.op);
      if sh.links == pc.seen
      then (sh.(links := next, history := sh.history + [pc.op]), Swapped(pc.seen, next, |sh.history| + 1))
      else (sh, Looping(pc.op))
    case StoreFlag =>
      var edge := IsEdge(pc.seen, pc.next);
      (sh.(connected := pc.next != {}, storedAt := pc.at, linkEdge := sh.linkEdge || edge), Stored(edge))
    case NotifyLink =>
      (if pc.edge then sh.(token := true, notified := sh.notified + 1) else sh, Idle)
    case AddBytes(n) =>
      var first := sh.bytesFed == 0;
      (sh.(bytesFed := sh.bytesFed + n, bytesEdge := sh.bytesEdge || first), Counted(first))
    case NotifyBytes => (if pc.first then sh.(token := true) else sh, Idle)
    case SetActive(v) =>
      (sh.(active := v, activeEdge := sh.activeEdge || v != sh.active), Published(v != sh.active))
    case NotifyActive => (if pc.changed then sh.(token := true) else sh, Idle)
  }

  function LoopMove(sh: Shared, l: LoopAction): Shared {
    match l
    case Take => sh.(token := false, loop := Drained)
    case Tick => sh.(loop := AtBytes)
    case Timer => sh.(loop := AtBytes)
    case ReadBytes => sh.(readBytes := sh.bytesFed, bytesEdge := false, loop := AtFlag)
    case ReadFlag => sh.(reported := sh.connected, linkEdge := false, loop := AtActive)
    case ReadActive => sh.(readActive := sh.active, activeEdge := false, loop := Waiting)
  }

  function Next(s: State, step: Step): State
    requires Enabled(s, step)
  {
    match step
    case ByThread(t, a) => var (sh, pc) := Move(s.sh, PcOf(s, t), a); State(sh, s.threads[t := pc])
    case ByLoop(l) => s.(sh := LoopMove(s.sh, l))
  }

  predicate IsRun(s: State, steps: seq<Step>)
    decreases |steps|
  {
    steps == [] || (Enabled(s, steps[0]) && IsRun(Next(s, steps[0]), steps[1..]))
  }

  function Run(s: State, steps: seq<Step>): State
    requires IsRun(s, steps)
    decreases |steps|
  {
    if steps == [] then s else Run(Next(s, steps[0]), steps[1..])
  }

  // ----- setLink linearises -----

  function Fold(ops: seq<LinkOp>): Mask {
    if ops == [] then {} else Apply(Fold(ops[..|ops| - 1]), ops[|ops| - 1])
  }

  /** How often the calls move between no link and some link. */
  function Edges(ops: seq<LinkOp>): nat {
    if ops == [] then 0
    else Edges(ops[..|ops| - 1]) + if IsEdge(Fold(ops[..|ops| - 1]), Fold(ops)) then 1 else 0
  }

  predicate Owes(pc: Pc) {
    match pc
    case Swapped(seen, next, _) => IsEdge(seen, next)
    case Stored(edge) => edge
    case _ => false
  }

  /** Threads that still owe the notification of an edge they caused. */
  ghost function Owing(threads: map<nat, Pc>): set<nat> {
    set t | t in threads && Owes(threads[t])
  }

  ghost predicate Linear(s: State) {
    s.sh.links == Fold(s.sh.history) && s.sh.notified + |Owing(s.threads)| == Edges(s.sh.history)
  }

  lemma HistoryGrows(ops: seq<LinkOp>, op: LinkOp)
    ensures Fold(ops + [op]) == Apply(Fold(ops), op)
    ensures Edges(ops + [op]) == Edges(ops) + if IsEdge(Fold(ops), Fold(ops + [op])) then 1 else 0
  {
  }

  function Debt(pc: Pc): nat {
    if Owes(pc) then 1 else 0
  }

  /** How one thread's move changes who owes a notification. */
  lemma OwingChanges(threads: map<nat, Pc>, t: nat, pc: Pc)
    ensures |Owing(threads[t := pc])| + (if t in threads then Debt(threads[t]) else 0) == |Owing(threads)| + Debt(pc)
  {
    var rest := Owing(threads) - {t};
    assert Owing(threads) == if t in threads && Owes(threads[t]) then rest + {t} else rest;
    assert Owing(threads[t := pc]) == if Owes(pc) then rest + {t} else rest;
  }

  /** An access keeps the mask equal to the fold and the edges balanced against sent and owed notifications. */
  lemma LinearMove(sh: Shared, pc: Pc, a: Action)
    requires CanMove(pc, a) && sh.links == Fold(sh.history)
    ensures var (sh', pc') := Move(sh, pc, a);
            sh'.links == Fold(sh'.history) &&
            sh'.notified + Debt(pc') + Edges(sh.history) == sh.notified + Debt(pc) + Edges(sh'.history)
  {
    hide Fold, Edges, Apply;
    if a.Load? || a.CompareAndSwap? {
      HistoryGrows(sh.history, pc.op);
    }
  }

  lemma NothingOwed()
    ensures Debt(Idle) == 0
  {
  }

  lemma LoopLeavesLinks(sh: Shared, l: LoopAction)
    ensures var t := LoopMove(sh, l);
            && t.links == sh.links && t.connected == sh.connected
            && t.history == sh.history && t.notified == sh.notified && t.storedAt == sh.storedAt
  {
    match l
    case Take =>
    case Tick =>
    case Timer =>
    case ReadBytes =>
    case ReadFlag =>
    case ReadActive =>
  }

  lemma LinearStep(s: State, step: Step)
    requires Linear(s) && Enabled(s, step)
    ensures Linear(Next(s, step))
  {
    hide Fold, Edges, Owing, Debt, Apply, Move, CanMove, LoopMove, CanLoop;
    match step
    case ByLoop(l) => LoopLeavesLinks(s.sh, l);
    case ByThread(t, a) =>
      var pc := PcOf(s, t);
      LinearMove(s.sh, pc, a);
      OwingChanges(s.threads, t, Move(s.sh, pc, a).1);
      NothingOwed();
  }

  lemma {:induction false} LinearRun(s: State, steps: seq<Step>)
    requires Linear(s) && IsRun(s, steps)
    ensures Linear(Run(s, steps))
    decreases |steps|
  {
    if steps != [] {
      LinearStep(s, steps[0]);
      LinearRun(Next(s, steps[0]), steps[1..]);
    }
  }

  /**
   In every interleaving the mask is the fold of the calls in the order they took
   effect, and edge notifications, sent or still owed, match the moves between
   no link and some link one for one.
   */
  lemma SetLinkLinearises(steps: seq<Step>)
    requires IsRun(INITIAL, steps)
    ensures Linear(Run(INITIAL, steps))
  {
    assert Owing(INITIAL.threads) == {};
    LinearRun(INITIAL, steps);
  }

  // ----- Each call of setLink takes effect once -----

  /** The thread is inside a call of `setLink(op)` that has not taken effect yet. */
  predicate Underway(pc: Pc, op: LinkOp) {
    pc == Looping(op) || (pc.Loaded? && pc.op == op)
  }

  ghost function ThreadsUnderway(threads: map<nat, Pc>, op: LinkOp): set<nat> {
    set t | t in threads && Underway(threads[t], op)
  }

  /** How often a run calls `setLink(op)`. */
  function CallsOf(steps: seq<Step>, op: LinkOp): nat {
    if steps == [] then 0
    else
      CallsOf(steps[1..], op) +
      match steps[0]
      case ByThread(_, CallSetLink(called)) => (if called == op then 1 else 0)
      case _ => 0
  }

  lemma UnderwayChanges(threads: map<nat, Pc>, t: nat, pc: Pc, op: LinkOp)
    ensures |ThreadsUnderway(threads[t := pc], op)| +
            (if t in threads && Underway(threads[t], op) then 1 else 0) ==
            |ThreadsUnderway(threads, op)| + if Underway(pc, op) then 1 else 0
  {
    var rest := ThreadsUnderway(threads, op) - {t};
    assert ThreadsUnderway(threads, op) == if t in threads && Underway(threads[t], op) then rest + {t} else rest;
    assert ThreadsUnderway(threads[t := pc], op) == if Underway(pc, op) then rest + {t} else rest;
  }

  /** A call begins, goes on or takes effect; nothing else touches the history. */
  lemma CallMove(sh: Shared, pc: Pc, a: Action)
    requires CanMove(pc, a)
    ensures var (sh', pc') := Move(sh, pc, a);
            if a.CallSetLink? then sh'.history == sh.history && pc' == Looping(a.op)
            else if !pc.Looping? && !pc.Loaded? then sh'.history == sh.history && !pc'.Looping? && !pc'.Loaded?
            else
              || (sh'.history == sh.history && (pc' == Looping(pc.op) || (pc'.Loaded? && pc'.op == pc.op)))
              || (sh'.history == sh.history + [pc.op] && !pc'.Looping? && !pc'.Loaded?)
  {
    hide Apply, IsEdge;
    match a
    case CallSetLink(_) =>
    case Load =>
    case CompareAndSwap =>
    case StoreFlag =>
    case NotifyLink =>
    case AddBytes(_) =>
    case NotifyBytes =>
    case SetActive(_) =>
    case NotifyActive =>
  }

  lemma CallCount(sh: Shared, pc: Pc, a: Action, op: LinkOp)
    requires CanMove(pc, a)
    ensures var (sh', pc') := Move(sh, pc, a);
            multiset(sh'.history)[op] + (if Underway(pc', op) then 1 else 0) ==
            multiset(sh.history)[op] + (if Underway(pc, op) then 1 else 0) + if a == CallSetLink(op) then 1 else 0
  {
    CallMove(sh, pc, a);
    assert a.CallSetLink? ==> pc == Idle;
    hide Move, CanMove;
  }

  /** Every call of `setLink` made in a run has taken effect exactly once or is still under way. */
  lemma {:induction false} TakesEffectOnce(s: State, steps: seq<Step>, op: LinkOp)
    requires IsRun(s, steps)
    ensures var e := Run(s, steps);
            multiset(e.sh.history)[op] + |ThreadsUnderway(e.threads, op)| ==
            multiset(s.sh.history)[op] + |ThreadsUnderway(s.threads, op)| + CallsOf(steps, op)
    decreases |steps|
  {
    hide Move, CanMove, LoopMove, CanLoop, ThreadsUnderway;
    if steps != [] {
      match steps[0] {
        case ByThread(t, a) =>
          CallCount(s.sh, PcOf(s, t), a, op);
          UnderwayChanges(s.threads, t, Move(s.sh, PcOf(s, t), a).1, op);
        case ByLoop(l) => LoopLeavesLinks(s.sh, l);
      }
      TakesEffectOnce(Next(s, steps[0]), steps[1..], op);
    }
  }

  /** Whether the last call that touched a bit raised it. */
  predicate LastUp(ops: seq<LinkOp>, bit: nat) {
    ops != [] && if bit in ops[|ops| - 1].mask then ops[|ops| - 1].up else LastUp(ops[..|ops| - 1], bit)
  }

  /**
   Each bit follows its own last call, so no protocol's link hides another's; some link is up exactly if some
   bit was last raised.
   */
  lemma {:induction false} BitsIndependent(ops: seq<LinkOp>)
    ensures forall bit: nat :: bit in Fold(ops) <==> LastUp(ops, bit)
    ensures Fold(ops) != {} <==> exists bit: nat :: LastUp(ops, bit)
  {
    if ops != [] {
      BitsIndependent(ops[..|ops| - 1]);
    }
    if Fold(ops) != {} {
      var bit :| bit in Fold(ops);
      assert LastUp(ops, bit);
    }
  }

  // ----- Connections that share a link bit -----

  /** A connection comes up or goes down; each uses the link bit of its protocol. */
  datatype Call = Call(conn: nat, up: bool)

  function OpsOf(bit: nat -> nat, calls: seq<Call>): seq<LinkOp> {
    if calls == [] then []
    else OpsOf(bit, calls[..|calls| - 1]) + [LinkOp({bit(calls[|calls| - 1].conn)}, calls[|calls| - 1].up)]
  }

  predicate ConnUp(calls: seq<Call>, conn: nat) {
    && calls != []
    && if calls[|calls| - 1].conn == conn then calls[|calls| - 1].up else ConnUp(calls[..|calls| - 1], conn)
  }

  lemma LastOp(bit: nat -> nat, calls: seq<Call>, b: nat)
    requires calls != []
    ensures var (ops, before, last) := (OpsOf(bit, calls), OpsOf(bit, calls[..|calls| - 1]), calls[|calls| - 1]);
            LastUp(ops, b) <==> if b == bit(last.conn) then last.up else LastUp(before, b)
  {
    var ops := OpsOf(bit, calls);
    assert ops[..|ops| - 1] == OpsOf(bit, calls[..|calls| - 1]);
  }

  lemma {:induction false} RaisedByConnection(bit: nat -> nat, calls: seq<Call>, b: nat) returns (conn: nat)
    requires LastUp(OpsOf(bit, calls), b)
    ensures bit(conn) == b && ConnUp(calls, conn)
    decreases |calls|
  {
    LastOp(bit, calls, b);
    var last := calls[|calls| - 1];
    if b == bit(last.conn) {
      conn := last.conn;
    } else {
      conn := RaisedByConnection(bit, calls[..|calls| - 1], b);
    }
  }

  /**
   Some link is up exactly if a connection is up whose bit was raised by the last call on it:
   one that shares its bit is hidden when another connection on that bit goes down.
   */
  lemma LinkIffConnection(bit: nat -> nat, calls: seq<Call>)
    ensures Fold(OpsOf(bit, calls)) != {} <==>
        exists conn :: ConnUp(calls, conn) && LastUp(OpsOf(bit, calls), bit(conn))
  {
    BitsIndependent(OpsOf(bit, calls));
    if Fold(OpsOf(bit, calls)) != {} {
      var b: nat :| LastUp(OpsOf(bit, calls), b);
      var conn := RaisedByConnection(bit, calls, b);
      assert ConnUp(calls, conn) && LastUp(OpsOf(bit, calls), bit(conn));
    }
  }

  lemma {:induction false} OwnBit(bit: nat -> nat, calls: seq<Call>, conn: nat)
    requires forall c, d :: bit(c) == bit(d) ==> c == d
    ensures ConnUp(calls, conn) <==> LastUp(OpsOf(bit, calls), bit(conn))
    decreases |calls|
  {
    if calls != [] {
      LastOp(bit, calls, bit(conn));
      OwnBit(bit, calls[..|calls| - 1], conn);
    }
  }

  /** With a bit of its own for each connection, some link is up exactly if some connection is. */
  lemma LinkIffConnectionWithOwnBits(bit: nat -> nat, calls: seq<Call>)
    requires forall c, d :: bit(c) == bit(d) ==> c == d
    ensures Fold(OpsOf(bit, calls)) != {} <==> exists conn :: ConnUp(calls, conn)
  {
    LinkIffConnection(bit, calls);
    forall conn ensures ConnUp(calls, conn) <==> LastUp(OpsOf(bit, calls), bit(conn)) {
      OwnBit(bit, calls, conn);
    }
  }

  /** Two connections on one bit: the first to go down hides the other. */
  lemma SharedBitHidesConnection(bit: nat -> nat)
    requires bit(1) == bit(2)
    ensures var calls := [Call(1, true), Call(2, true), Call(1, false)];
            ConnUp(calls, 2) && Fold(OpsOf(bit, calls)) == {}
  {
    var one := [Call(1, true)];
    var two := [Call(1, true), Call(2, true)];
    var three := [Call(1, true), Call(2, true), Call(1, false)];
    assert three[..|three| - 1] == two && two[..|two| - 1] == one && one[..|one| - 1] == [];
    forall b: nat ensures !LastUp(OpsOf(bit, three), b) {
      LastOp(bit, three, b);
      LastOp(bit, two, b);
      LastOp(bit, one, b);
    }
    BitsIndependent(OpsOf(bit, three));
    assert ConnUp(two, 2) && ConnUp(three, 2);
  }

  // ----- No lost wake-up -----

  ghost predicate Pending(s: State, pc: Pc) {
    exists t :: t in s.threads && s.threads[t] == pc
  }

  /**
   An edge no beat has read is backed by a token, by the loop on its way to the read, or by a producer about to
   notify.
   */
  ghost predicate Awake(s: State) {
    && (s.sh.linkEdge ==> s.sh.token || s.sh.loop in {Drained, AtBytes, AtFlag} || Pending(s, Stored(true)))
    && (s.sh.bytesEdge ==> s.sh.token || s.sh.loop in {Drained, AtBytes} || Pending(s, Counted(true)))
    && (s.sh.activeEdge ==>
          s.sh.token || s.sh.loop in {Drained, AtBytes, AtFlag, AtActive} || Pending(s, Published(true)))
  }

  /** An access raises an edge only with the notification outstanding, and sends the one that was outstanding. */
  lemma EdgeMove(sh: Shared, pc: Pc, a: Action)
    requires CanMove(pc, a)
    ensures var (sh', pc') := Move(sh, pc, a);
            && sh'.loop == sh.loop && (sh.token ==> sh'.token)
            && (sh'.linkEdge ==> sh.linkEdge || pc' == Stored(true))
            && (sh'.bytesEdge ==> sh.bytesEdge || pc' == Counted(true))
            && (sh'.activeEdge ==> sh.activeEdge || pc' == Published(true))
            && (pc in {Stored(true), Counted(true), Published(true)} ==> sh'.token)
  {
    hide Apply;
    match a
    case CallSetLink(_) =>
    case Load =>
    case CompareAndSwap =>
    case StoreFlag =>
    case NotifyLink =>
    case AddBytes(_) =>
    case NotifyBytes =>
    case SetActive(_) =>
    case NotifyActive =>
  }

  lemma AwakeStep(s: State, step: Step)
    requires Awake(s) && Enabled(s, step)
    ensures Awake(Next(s, step))
  {
    var s' := Next(s, step);
    if step.ByLoop? {
      assert forall pc :: Pending(s, pc) ==> Pending(s', pc);
    } else {
      EdgeMove(s.sh, PcOf(s, step.t), step.a);
      hide Move, CanMove;
      if !s'.sh.token {
        forall pc | pc in {Stored(true), Counted(true), Published(true)} && Pending(s, pc) ensures Pending(s', pc) {
          var u :| u in s.threads && s.threads[u] == pc;
          assert s'.threads[u] == pc;
        }
        assert Pending(s', s'.threads[step.t]);
      }
    }
  }

  lemma {:induction false} AwakeRun(s: State, steps: seq<Step>)
    requires Awake(s) && IsRun(s, steps)
    ensures Awake(Run(s, steps))
    decreases |steps|
  {
    if steps != [] {
      AwakeStep(s, steps[0]);
      AwakeRun(Next(s, steps[0]), steps[1..]);
    }
  }

  // ----- Bytes and the decoder list, compared with what the last beat read -----

  /** Bytes no beat has seen any of, or a decoder list other than the one read, are an unread edge. */
  predicate CountersBacked(sh: Shared) {
    && (sh.readBytes == 0 && sh.bytesFed > 0 ==> sh.bytesEdge)
    && (sh.active != sh.readActive ==> sh.activeEdge)
  }

  /** How many bytes an action adds. */
  function BytesOf(step: Step): nat {
    match step
    case ByThread(_, AddBytes(n)) => n
    case _ => 0
  }

  function TotalBytes(steps: seq<Step>): nat {
    if steps == [] then 0 else BytesOf(steps[0]) + TotalBytes(steps[1..])
  }

  /** The decoder list the last call of setActive published. */
  function LastList(steps: seq<Step>, before: nat): nat {
    if steps == [] then before
    else LastList(steps[1..], match steps[0] case ByThread(_, SetActive(v)) => v case _ => before)
  }

  lemma CountersMove(sh: Shared, pc: Pc, a: Action)
    requires CanMove(pc, a) && CountersBacked(sh)
    ensures var t := Move(sh, pc, a).0;
            && CountersBacked(t) && t.bytesFed == (sh.bytesFed + match a case AddBytes(n) => n case _ => 0)
            && t.active == match a case SetActive(v) => v case _ => sh.active
  {
    hide Apply;
    match a
    case CallSetLink(_) =>
    case Load =>
    case CompareAndSwap =>
    case StoreFlag =>
    case NotifyLink =>
    case AddBytes(_) =>
    case NotifyBytes =>
    case SetActive(_) =>
    case NotifyActive =>
  }

  lemma CountersLoop(sh: Shared, l: LoopAction)
    requires CountersBacked(sh)
    ensures var t := LoopMove(sh, l); CountersBacked(t) && t.bytesFed == sh.bytesFed && t.active == sh.active
  {
    match l
    case Take =>
    case Tick =>
    case Timer =>
    case ReadBytes =>
    case ReadFlag =>
    case ReadActive =>
  }

  lemma {:induction false} CountersRun(s: State, steps: seq<Step>)
    requires CountersBacked(s.sh) && IsRun(s, steps)
    ensures var e := Run(s, steps).sh;
            && CountersBacked(e) && e.bytesFed == s.sh.bytesFed + TotalBytes(steps)
            && e.active == LastList(steps, s.sh.active)
    decreases |steps|
  {
    hide Move, CanMove, LoopMove, CanLoop, CountersBacked;
    if steps != [] {
      match steps[0] {
        case ByThread(t, a) => CountersMove(s.sh, PcOf(s, t), a);
        case ByLoop(l) => CountersLoop(s.sh, l);
      }
      CountersRun(Next(s, steps[0]), steps[1..]);
    }
  }

  /**
   In every interleaving no edge is left unread without a wake-up for it under way: bytes fed
   while the last beat read none, and a decoder list other than the one it read, are
   followed by a beat.  The byte count is the sum of all bytes added, the list the last published.
   */
  lemma NoLostWakeup(steps: seq<Step>)
    requires IsRun(INITIAL, steps)
    ensures Awake(Run(INITIAL, steps))
    ensures var e := Run(INITIAL, steps);
            && e.sh.bytesFed == TotalBytes(steps) && e.sh.active == LastList(steps, 0)
            && (e.sh.bytesFed > 0 && e.sh.readBytes == 0 ==>
                  e.sh.token || e.sh.loop in {Drained, AtBytes} || Pending(e, Counted(true)))
            && (e.sh.active != e.sh.readActive ==>
                  e.sh.token || e.sh.loop in {Drained, AtBytes, AtFlag, AtActive} || Pending(e, Published(true)))
  {
    AwakeRun(INITIAL, steps);
    CountersRun(INITIAL, steps);
  }

  /** A thread inside a call has one access to make next; one that is not can begin any call. */
  lemma ThreadOrder(pc: Pc, a: Action)
    ensures CanMove(pc, a) <==>
            match pc
            case Idle => a.CallSetLink? || a.SetActive? || (a.AddBytes? && a.n >= 1)
            case Looping(_) => a == Load
            case Loaded(_, _) => a == CompareAndSwap
            case Swapped(_, _, _) => a == StoreFlag
            case Stored(_) => a == NotifyLink
            case Counted(_) => a == NotifyBytes
            case Published(_) => a == NotifyActive
  {
  }

  /** The loop waits for a token or the ticker, and otherwise has one step to take next. */
  lemma LoopOrder(sh: Shared, l: LoopAction)
    ensures CanLoop(sh, l) <==>
            match sh.loop
            case Waiting => l == Tick || (l == Take && sh.token)
            case Drained => l == Timer
            case AtBytes => l == ReadBytes
            case AtFlag => l == ReadFlag
            case AtActive => l == ReadActive
  {
  }

  /** Nothing was ever called: no token, link, bytes or decoders, and nothing reported. */
  predicate Untouched(s: State) {
    s == State(Shared({}, false, 0, 0, false, s.sh.loop, false, 0, 0, [], 0, 0, false, false, false), map[])
  }

  lemma {:induction false} UntouchedRun(s: State, steps: seq<Step>)
    requires Untouched(s) && IsRun(s, steps) && forall i :: 0 <= i < |steps| ==> steps[i].ByLoop?
    ensures Untouched(Run(s, steps))
    decreases |steps|
  {
    if steps != [] {
      UntouchedRun(Next(s, steps[0]), steps[1..]);
    }
  }

  /** The loop alone never finds anything to report. */
  lemma QuietUntilCalled(steps: seq<Step>)
    requires IsRun(INITIAL, steps) && forall i :: 0 <= i < |steps| ==> steps[i].ByLoop?
    ensures Untouched(Run(INITIAL, steps))
  {
    UntouchedRun(INITIAL, steps);
  }

  /** A beat the loop is woken for reads every counter as it stands. */
  lemma WokenBeatReads(s: State)
    requires s.sh.loop == Waiting && s.sh.token
    ensures var steps := [ByLoop(Take), ByLoop(Timer), ByLoop(ReadBytes), ByLoop(ReadFlag), ByLoop(ReadActive)];
            IsRun(s, steps) &&
            var e := Run(s, steps);
            && e.sh.readBytes == s.sh.bytesFed && e.sh.reported == s.sh.connected && e.sh.readActive == s.sh.active
            && e.sh.loop == Waiting && !e.sh.token && e.threads == s.threads
  {
    Wakes(s);
    var m := s.(sh := s.sh.(token := false, loop := AtBytes));
    Beats(m);
    RunConcat(s, WAKE, BEAT);
    assert WAKE + BEAT == [ByLoop(Take), ByLoop(Timer), ByLoop(ReadBytes), ByLoop(ReadFlag), ByLoop(ReadActive)];
  }

  // ----- When the flag agrees with the mask -----

  /** No two threads are between their swap and their store. */
  ghost predicate Apart(s: State) {
    forall t, u :: t in s.threads && u in s.threads && s.threads[t].Swapped? && s.threads[u].Swapped? ==> t == u
  }

  ghost predicate ApartThroughout(s: State, steps: seq<Step>)
    requires IsRun(s, steps)
    decreases |steps|
  {
    Apart(s) && (steps == [] || ApartThroughout(Next(s, steps[0]), steps[1..]))
  }

  ghost predicate InWindow(s: State) {
    exists t :: t in s.threads && s.threads[t].Swapped?
  }

  /** Outside the window the flag says whether a link is up, and inside it whether one was. */
  ghost predicate FlagAgrees(s: State) {
    && (!InWindow(s) ==> s.sh.connected == (s.sh.links != {}))
    && (forall t :: t in s.threads && s.threads[t].Swapped? ==>
          s.sh.links == s.threads[t].next && s.sh.connected == (s.threads[t].seen != {}))
  }

  /** Outside the swap and the store, an access leaves mask, flag and report alone. */
  lemma FlagMove(sh: Shared, pc: Pc, a: Action)
    requires CanMove(pc, a)
    ensures var (sh', pc') := Move(sh, pc, a);
            && sh'.reported == sh.reported
            && (!pc.Swapped? && !pc'.Swapped? ==>
                  sh'.links == sh.links && sh'.connected == sh.connected && sh'.linkEdge == sh.linkEdge)
            && (pc'.Swapped? ==> sh.links == pc'.seen && sh'.links == pc'.next && sh'.connected == sh.connected
                                 && sh'.linkEdge == sh.linkEdge)
            && (pc.Swapped? ==> !pc'.Swapped? && sh'.links == sh.links && sh'.connected == (pc.next != {})
                                && sh'.linkEdge == (sh.linkEdge || IsEdge(pc.seen, pc.next)))
  {
    hide Apply;
    match a
    case CallSetLink(_) =>
    case Load =>
    case CompareAndSwap =>
    case StoreFlag =>
    case NotifyLink =>
    case AddBytes(_) =>
    case NotifyBytes =>
    case SetActive(_) =>
    case NotifyActive =>
  }

  lemma FlagStep(s: State, step: Step)
    requires Apart(s) && FlagAgrees(s) && Enabled(s, step) && Apart(Next(s, step))
    ensures FlagAgrees(Next(s, step))
  {
    var s' := Next(s, step);
    hide Move, CanMove, LoopMove, CanLoop;
    if step.ByLoop? {
      LoopLeavesLinks(s.sh, step.l);
      assert InWindow(s') == InWindow(s);
    } else {
      var t := step.t;
      FlagMove(s.sh, PcOf(s, t), step.a);
      assert forall u :: u in s.threads && u != t ==> u in s'.threads && s'.threads[u] == s.threads[u];
      if s'.threads[t].Swapped? {
        assert InWindow(s') && !InWindow(s);
      } else if InWindow(s) && !PcOf(s, t).Swapped? {
        var u :| u in s.threads && s.threads[u].Swapped?;
        assert s'.threads[u].Swapped?;
      }
    }
  }

  lemma {:induction false} FlagRun(s: State, steps: seq<Step>)
    requires FlagAgrees(s) && IsRun(s, steps) && ApartThroughout(s, steps)
    ensures FlagAgrees(Run(s, steps)) && NeverSilent(s, steps)
    decreases |steps|
  {
    if steps != [] {
      FlagStep(s, steps[0]);
      FlagRun(Next(s, steps[0]), steps[1..]);
    }
  }

  // ----- When an outdated report is followed by a beat -----

  /** What a beat reported is out of date only after an edge no beat has read. */
  predicate ReportBacked(sh: Shared) {
    sh.reported != sh.connected ==> sh.linkEdge
  }

  /** The store flips the flag although its call was no edge, and no other edge is unread. */
  predicate Silent(s: State, step: Step) {
    && step.ByThread? && step.a.StoreFlag? && PcOf(s, step.t).Swapped?
    && var pc := PcOf(s, step.t);
       !s.sh.linkEdge && !IsEdge(pc.seen, pc.next) && s.sh.connected != (pc.next != {})
  }

  predicate NeverSilent(s: State, steps: seq<Step>)
    requires IsRun(s, steps)
    decreases |steps|
  {
    steps == [] || (!Silent(s, steps[0]) && NeverSilent(Next(s, steps[0]), steps[1..]))
  }

  predicate AlwaysBacked(s: State, steps: seq<Step>)
    requires IsRun(s, steps)
    decreases |steps|
  {
    ReportBacked(s.sh) && (steps == [] || AlwaysBacked(Next(s, steps[0]), steps[1..]))
  }

  lemma BackedStep(s: State, step: Step)
    requires ReportBacked(s.sh) && Enabled(s, step)
    ensures ReportBacked(Next(s, step).sh) <==> !Silent(s, step)
  {
    if step.ByThread? {
      FlagMove(s.sh, PcOf(s, step.t), step.a);
      OnlyStores(s.sh, PcOf(s, step.t), step.a);
      hide Move;
    }
  }

  lemma OnlyStores(sh: Shared, pc: Pc, a: Action)
    requires CanMove(pc, a)
    ensures pc.Swapped? <==> a.StoreFlag?
  {
  }

  lemma {:induction false} BackedRun(s: State, steps: seq<Step>)
    requires ReportBacked(s.sh) && IsRun(s, steps)
    ensures AlwaysBacked(s, steps) <==> NeverSilent(s, steps)
    ensures NeverSilent(s, steps) ==> ReportBacked(Run(s, steps).sh)
    decreases |steps|
  {
    if steps != [] {
      BackedStep(s, steps[0]);
      hide Next, Silent, ReportBacked;
      if !Silent(s, steps[0]) {
        BackedRun(Next(s, steps[0]), steps[1..]);
      } else {
        NotBacked(Next(s, steps[0]), steps[1..]);
      }
    }
  }

  lemma NotBacked(s: State, steps: seq<Step>)
    requires IsRun(s, steps) && !ReportBacked(s.sh)
    ensures !AlwaysBacked(s, steps)
  {
  }

  /** A beat is on its way to read the flag: a token, the loop before the read, or a producer about to notify. */
  ghost predicate BeatComing(s: State) {
    s.sh.token || s.sh.loop in {Drained, AtBytes, AtFlag} || Pending(s, Stored(true))
  }

  /**
   Over any run, overlapping calls included, what a beat reported is at every moment the
   flag or backed by an unread edge if and only if no store flips the flag silently; and then an
   outdated report is followed by a beat, whose wake-up is already under way.
   */
  lemma OutdatedReportIff(steps: seq<Step>)
    requires IsRun(INITIAL, steps)
    ensures AlwaysBacked(INITIAL, steps) <==> NeverSilent(INITIAL, steps)
    ensures var e := Run(INITIAL, steps);
            NeverSilent(INITIAL, steps) && e.sh.reported != e.sh.connected ==> BeatComing(e)
  {
    BackedRun(INITIAL, steps);
    NoLostWakeup(steps);
  }

  /**
   If no two calls overlap between swap and store, the flag agrees with the mask
   whenever no call is in that window, and a beat that reported something else
   is followed by another one: the wake-up for it is already under way.
   */
  lemma FlagAgreesWhenApart(steps: seq<Step>)
    requires IsRun(INITIAL, steps) && ApartThroughout(INITIAL, steps)
    ensures var e := Run(INITIAL, steps);
            && FlagAgrees(e) && ReportBacked(e.sh)
            && (!InWindow(e) && e.sh.reported != (e.sh.links != {}) ==> BeatComing(e))
  {
    FlagRun(INITIAL, steps);
    OutdatedReportIff(steps);
    BackedRun(INITIAL, steps);
  }

  // ----- Runs with overlapping calls -----

  /** The mask once the first `n` calls took effect. */
  function MaskAt(ops: seq<LinkOp>, n: nat): Mask
    requires n <= |ops|
  {
    Fold(ops[..n])
  }

  lemma MaskAtPrefix(ops: seq<LinkOp>, more: seq<LinkOp>, n: nat)
    requires ops <= more && n <= |ops|
    ensures MaskAt(more, n) == MaskAt(ops, n)
  {
    assert more[..n] == ops[..n];
  }

  lemma MaskAtEnd(ops: seq<LinkOp>, op: LinkOp)
    ensures MaskAt(ops + [op], |ops| + 1) == Fold(ops + [op]) == Apply(Fold(ops), op)
  {
    HistoryGrows(ops, op);
    assert (ops + [op])[..|ops| + 1] == ops + [op];
  }

  /** The flag is that of the call recorded as stored, and the mask that of all calls. */
  predicate Recorded(sh: Shared) {
    sh.links == Fold(sh.history) && sh.storedAt <= |sh.history| &&
        sh.connected == (MaskAt(sh.history, sh.storedAt) != {})
  }

  /** What a thread is about to store is the mask of the call recorded with it. */
  predicate Tracks(history: seq<LinkOp>, pc: Pc) {
    pc.Swapped? ==> pc.at <= |history| && pc.next == MaskAt(history, pc.at)
  }

  ghost predicate StoreTracks(s: State) {
    Recorded(s.sh) && forall t :: t in s.threads ==> Tracks(s.sh.history, s.threads[t])
  }

  lemma TracksMove(sh: Shared, pc: Pc, a: Action)
    requires CanMove(pc, a) && Recorded(sh) && Tracks(sh.history, pc)
    ensures var (sh', pc') := Move(sh, pc, a); sh.history <= sh'.history && Recorded(sh') && Tracks(sh'.history, pc')
  {
    hide Fold, Apply, MaskAt;
    if a.Load? || a.CompareAndSwap? {
      MaskAtEnd(sh.history, pc.op);
      MaskAtPrefix(sh.history, sh.history + [pc.op], sh.storedAt);
    }
  }

  lemma LoopTracks(sh: Shared, l: LoopAction)
    requires Recorded(sh)
    ensures Recorded(LoopMove(sh, l)) && LoopMove(sh, l).history == sh.history
  {
    hide Fold, MaskAt, LoopMove;
    LoopLeavesLinks(sh, l);
  }

  lemma TracksLonger(ops: seq<LinkOp>, more: seq<LinkOp>, pc: Pc)
    requires Tracks(ops, pc) && ops <= more
    ensures Tracks(more, pc)
  {
    if pc.Swapped? {
      MaskAtPrefix(ops, more, pc.at);
    }
  }

  lemma TracksStep(s: State, step: Step)
    requires StoreTracks(s) && Enabled(s, step)
    ensures StoreTracks(Next(s, step))
  {
    hide Move, CanMove, CanLoop, LoopMove, Tracks, Recorded;
    var s' := Next(s, step);
    match step
    case ByLoop(l) => LoopTracks(s.sh, l);
    case ByThread(t, a) =>
      assert Tracks(s.sh.history, PcOf(s, t)) by { IdleTracks(s.sh.history); }
      TracksMove(s.sh, PcOf(s, t), a);
      forall u | u in s'.threads && u != t ensures Tracks(s'.sh.history, s'.threads[u]) {
        TracksLonger(s.sh.history, s'.sh.history, s.threads[u]);
      }
  }

  lemma IdleTracks(ops: seq<LinkOp>)
    ensures Tracks(ops, Idle)
  {
  }

  lemma {:induction false} TracksRun(s: State, steps: seq<Step>)
    requires StoreTracks(s) && IsRun(s, steps)
    ensures StoreTracks(Run(s, steps))
    decreases |steps|
  {
    if steps != [] {
      TracksStep(s, steps[0]);
      TracksRun(Next(s, steps[0]), steps[1..]);
    }
  }

  lemma {:induction false} EdgesParity(ops: seq<LinkOp>)
    ensures Edges(ops) % 2 == if Fold(ops) != {} then 1 else 0
  {
    if ops != [] {
      EdgesParity(ops[..|ops| - 1]);
    }
  }

  lemma EvenDifference(x: int, y: int)
    ensures (x - y) % 2 == 0 <==> x % 2 == y % 2
  {
  }

  lemma FlagParity(sh: Shared)
    requires Recorded(sh)
    ensures sh.connected == (sh.links != {}) <==> (Edges(sh.history) - Edges(sh.history[..sh.storedAt])) % 2 == 0
  {
    hide Fold, Edges;
    EdgesParity(sh.history);
    EdgesParity(sh.history[..sh.storedAt]);
    EvenDifference(Edges(sh.history), Edges(sh.history[..sh.storedAt]));
  }

  /**
   Over any run, overlapping calls included, the flag agrees with the mask if and only if
   the number of edges that took effect after the call that stored last is even.
   */
  lemma FlagAgreesIff(steps: seq<Step>)
    requires IsRun(INITIAL, steps)
    ensures var sh := Run(INITIAL, steps).sh;
            && sh.storedAt <= |sh.history|
            && (sh.connected == (sh.links != {}) <==> (Edges(sh.history) - Edges(sh.history[..sh.storedAt])) % 2 == 0)
  {
    TracksRun(INITIAL, steps);
    hide Run, IsRun, Fold, Edges, MaskAt;
    FlagParity(Run(INITIAL, steps).sh);
  }

  /** Two overlapping calls that store in the opposite order leave the flag wrong with every thread at rest. */
  lemma OverlapLeavesStaleFlag() returns (steps: seq<Step>)
    ensures IsRun(INITIAL, steps)
    ensures var e := Run(INITIAL, steps);
            && e.sh.links == {} && e.sh.connected && !InWindow(e)
            && e.sh.history == [LinkOp({0}, true), LinkOp({0}, false)]
  {
    var raise, drop := CallSetLink(LinkOp({0}, true)), CallSetLink(LinkOp({0}, false));
    var s1 := Next(Next(Next(INITIAL, ByThread(0, raise)), ByThread(0, Load)), ByThread(0, CompareAndSwap));
    var s2 := Next(Next(Next(s1, ByThread(1, drop)), ByThread(1, Load)), ByThread(1, CompareAndSwap));
    ThreeSteps(INITIAL, ByThread(0, raise), ByThread(0, Load), ByThread(0, CompareAndSwap));
    ThreeSteps(s1, ByThread(1, drop), ByThread(1, Load), ByThread(1, CompareAndSwap));
    var s3 := Next(Next(s2, ByThread(1, StoreFlag)), ByThread(0, StoreFlag));
    ThreeSteps(s2, ByThread(1, StoreFlag), ByThread(0, StoreFlag), ByThread(0, NotifyLink));
    hide IsRun, Run;
    var first := [ByThread(0, raise), ByThread(0, Load), ByThread(0, CompareAndSwap)];
    var middle := [ByThread(1, drop), ByThread(1, Load), ByThread(1, CompareAndSwap)];
    var last := [ByThread(1, StoreFlag), ByThread(0, StoreFlag), ByThread(0, NotifyLink)];
    RunConcat(s1, middle, last);
    RunConcat(INITIAL, first, middle + last);
    steps := first + (middle + last);
  }

  // ----- A silent store -----

  predicate Leads(s: State, steps: seq<Step>, e: State) {
    IsRun(s, steps) && Run(s, steps) == e
  }

  lemma LeadsOn(s: State, a: seq<Step>, m: State, b: seq<Step>, e: State)
    requires Leads(s, a, m) && Leads(m, b, e)
    ensures Leads(s, a + b, e)
  {
    RunConcat(s, a, b);
  }

  /** A call of setLink up to its swap. */
  function SwapSteps(t: nat, op: LinkOp): seq<Step> {
    [ByThread(t, CallSetLink(op)), ByThread(t, Load), ByThread(t, CompareAndSwap)]
  }

  function AfterSwap(s: State, t: nat, op: LinkOp): State {
    var next := Apply(s.sh.links, op);
    State(s.sh.(links := next, history := s.sh.history + [op]),
          s.threads[t := Swapped(s.sh.links, next, |s.sh.history| + 1)])
  }

  lemma Swaps(s: State, t: nat, op: LinkOp)
    requires PcOf(s, t).Idle? && Apply(s.sh.links, op) != s.sh.links
    ensures Leads(s, SwapSteps(t, op), AfterSwap(s, t, op))
  {
    var s1 := Next(s, ByThread(t, CallSetLink(op)));
    var s2 := Next(s1, ByThread(t, Load));
    assert Next(s2, ByThread(t, CompareAndSwap)) == AfterSwap(s, t, op);
    ThreeSteps(s, ByThread(t, CallSetLink(op)), ByThread(t, Load), ByThread(t, CompareAndSwap));
  }

  /** The rest of a call of setLink. */
  function StoreSteps(t: nat): seq<Step> {
    [ByThread(t, StoreFlag), ByThread(t, NotifyLink)]
  }

  function AfterStore(s: State, t: nat): State
    requires PcOf(s, t).Swapped?
  {
    var pc := PcOf(s, t);
    var edge := IsEdge(pc.seen, pc.next);
    State(s.sh.(connected := pc.next != {}, storedAt := pc.at, linkEdge := s.sh.linkEdge || edge,
                token := s.sh.token || edge, notified := s.sh.notified + if edge then 1 else 0),
          s.threads[t := Idle])
  }

  lemma StoresAndNotifies(s: State, t: nat)
    requires PcOf(s, t).Swapped?
    ensures Leads(s, StoreSteps(t), AfterStore(s, t))
  {
    var s1 := Next(s, ByThread(t, StoreFlag));
    assert Next(s1, ByThread(t, NotifyLink)) == AfterStore(s, t);
    TwoSteps(s, ByThread(t, StoreFlag), ByThread(t, NotifyLink));
  }

  const BEAT: seq<Step> := [ByLoop(ReadBytes), ByLoop(ReadFlag), ByLoop(ReadActive)]

  function AfterBeat(s: State): State {
    s.(sh := s.sh.(readBytes := s.sh.bytesFed, readActive := s.sh.active, reported := s.sh.connected,
        linkEdge := false, bytesEdge := false, activeEdge := false,
        loop := Waiting))
  }

  lemma Beats(s: State)
    requires s.sh.loop.AtBytes?
    ensures Leads(s, BEAT, AfterBeat(s))
  {
    ThreeSteps(s, ByLoop(ReadBytes), ByLoop(ReadFlag), ByLoop(ReadActive));
  }

  const WAKE: seq<Step> := [ByLoop(Take), ByLoop(Timer)]

  lemma Wakes(s: State)
    requires s.sh.loop.Waiting? && s.sh.token
    ensures Leads(s, WAKE, s.(sh := s.sh.(token := false, loop := AtBytes)))
  {
    TwoSteps(s, ByLoop(Take), ByLoop(Timer));
  }

  /** A swap and its store, one right after the other. */
  lemma WholeCall(s: State, t: nat, op: LinkOp)
    requires PcOf(s, t).Idle? && Apply(s.sh.links, op) != s.sh.links
    ensures Leads(s, SwapSteps(t, op) + StoreSteps(t), AfterStore(AfterSwap(s, t, op), t))
  {
    var m := AfterSwap(s, t, op);
    Swaps(s, t, op);
    StoresAndNotifies(m, t);
    LeadsOn(s, SwapSteps(t, op), m, StoreSteps(t), AfterStore(m, t));
  }

  const UP := LinkOp({0}, true)
  const DOWN := LinkOp({0}, false)
  const OTHER := LinkOp({1}, true)

  /**
   One thread is about to store that the only link went down, another that a second one came up beside a new
   first.
   */
  lemma TwoStoresDelayed() returns (steps: seq<Step>, e: State)
    ensures Leads(INITIAL, steps, e)
    ensures e.threads == map[0 := Idle, 1 := Swapped({0}, {}, 2), 2 := Idle, 3 := Swapped({0}, {0, 1}, 4)]
    ensures e.sh.links == {0, 1} && e.sh.connected && e.sh.loop.AtBytes?
  {
    var s1 := AfterStore(AfterSwap(INITIAL, 0, UP), 0);
    WholeCall(INITIAL, 0, UP);
    var s2 := AfterSwap(s1, 1, DOWN);
    Swaps(s1, 1, DOWN);
    assert s1.sh.links == {0} && s2.sh.links == {};
    var s3 := AfterStore(AfterSwap(s2, 2, UP), 2);
    WholeCall(s2, 2, UP);
    assert s3.sh.links == {0};
    e := AfterSwap(s3, 3, OTHER);
    Swaps(s3, 3, OTHER);
    assert e.sh.links == {0, 1};
    assert e.threads == map[0 := Idle, 1 := Swapped({0}, {}, 2), 2 := Idle, 3 := Swapped({0}, {0, 1}, 4)];
    hide Leads, AfterSwap, AfterStore;
    var a, b := SwapSteps(0, UP) + StoreSteps(0), SwapSteps(2, UP) + StoreSteps(2);
    LeadsOn(INITIAL, a, s1, SwapSteps(1, DOWN), s2);
    LeadsOn(INITIAL, a + SwapSteps(1, DOWN), s2, b, s3);
    steps := a + SwapSteps(1, DOWN) + b;
    LeadsOn(INITIAL, steps, s3, SwapSteps(3, OTHER), e);
    steps := steps + SwapSteps(3, OTHER);
  }

  /**
   A delayed store without an edge flips the flag back after a beat read it: every thread
   and the loop are at rest, flag and mask are right, and the server has been told otherwise.
   */
  lemma SilentStoreHidesLink() returns (steps: seq<Step>)
    ensures IsRun(INITIAL, steps) && !NeverSilent(INITIAL, steps)
    ensures var e := Run(INITIAL, steps);
            && e.sh.links == {0, 1} && e.sh.connected && !e.sh.reported && !BeatComing(e) && e.sh.loop.Waiting?
            && e.threads == map[0 := Idle, 1 := Idle, 2 := Idle, 3 := Idle]
  {
    var first, s4 := TwoStoresDelayed();
    var s5 := AfterStore(s4, 1);
    StoresAndNotifies(s4, 1);
    var s6 := AfterBeat(s5);
    Beats(s5);
    var s7 := s6.(sh := s6.sh.(token := false, loop := AtBytes));
    Wakes(s6);
    var s8 := AfterBeat(s7);
    Beats(s7);
    var e := AfterStore(s8, 3);
    StoresAndNotifies(s8, 3);
    assert e.threads == map[0 := Idle, 1 := Idle, 2 := Idle, 3 := Idle];
    assert e.sh.connected && !e.sh.reported && !e.sh.linkEdge && !BeatComing(e) && e.sh.links == {0, 1};
    hide Leads, AfterStore, AfterBeat, IsRun, Run, NeverSilent, AlwaysBacked;
    LeadsOn(INITIAL, first, s4, StoreSteps(1), s5);
    LeadsOn(INITIAL, first + StoreSteps(1), s5, BEAT, s6);
    LeadsOn(INITIAL, first + StoreSteps(1) + BEAT, s6, WAKE, s7);
    LeadsOn(INITIAL, first + StoreSteps(1) + BEAT + WAKE, s7, BEAT, s8);
    LeadsOn(INITIAL, first + StoreSteps(1) + BEAT + WAKE + BEAT, s8, StoreSteps(3), e);
    steps := first + StoreSteps(1) + BEAT + WAKE + BEAT + StoreSteps(3);
    Arrives(INITIAL, steps, e);
    OutdatedReportIff(steps);
  }

  lemma Arrives(s: State, steps: seq<Step>, e: State)
    requires Leads(s, steps, e)
    ensures IsRun(s, steps) && Run(s, steps) == e
  {
  }

  lemma TwoSteps(s: State, a: Step, b: Step)
    requires Enabled(s, a) && Enabled(Next(s, a), b)
    ensures IsRun(s, [a, b]) && Run(s, [a, b]) == Next(Next(s, a), b)
  {
    hide Next, Enabled;
    assert [a, b][1..] == [b] && [b][1..] == [];
    assert IsRun(Next(s, a), [b]) && Run(Next(s, a), [b]) == Next(Next(s, a), b);
  }

  lemma ThreeSteps(s: State, a: Step, b: Step, c: Step)
    requires Enabled(s, a) && Enabled(Next(s, a), b) && Enabled(Next(Next(s, a), b), c)
    ensures IsRun(s, [a, b, c]) && Run(s, [a, b, c]) == Next(Next(Next(s, a), b), c)
  {
    hide Next, Enabled;
    assert [a, b, c][1..] == [b, c] && [b, c][1..] == [c] && [c][1..] == [];
    assert IsRun(Next(Next(s, a), b), [c]) && Run(Next(Next(s, a), b), [c]) == Next(Next(Next(s, a), b), c);
  }

  lemma {:induction false} RunConcat(s: State, a: seq<Step>, b: seq<Step>)
    requires IsRun(s, a) && IsRun(Run(s, a), b)
    ensures IsRun(s, a + b) && Run(s, a + b) == Run(Run(s, a), b)
    decreases |a|
  {
    hide Next, Enabled;
    if a == [] {
      assert a + b == b;
    } else {
      RunConcat(Next(s, a[0]), a[1..], b);
      assert (a + b)[1..] == a[1..] + b;
    }
  }

  // ----- Exactly when the order of the stores matters -----

  ghost function Window(s: State): set<nat> {
    set t | t in s.threads && s.threads[t].Swapped?
  }

  /** `order` lists the threads in the window, each once. */
  ghost predicate IsOrder(s: State, order: seq<nat>) {
    && (forall i, j :: 0 <= i < j < |order| ==> order[i] != order[j])
    && (forall t :: t in order <==> t in Window(s))
  }

  function Stores(order: seq<nat>): seq<Step> {
    seq(|order|, i requires 0 <= i < |order| => ByThread(order[i], StoreFlag))
  }

  lemma {:induction false} RunStores(s: State, order: seq<nat>)
    requires (forall i, j :: 0 <= i < j < |order| ==> order[i] != order[j])
    requires forall i :: 0 <= i < |order| ==> PcOf(s, order[i]).Swapped?
    ensures IsRun(s, Stores(order)) && Run(s, Stores(order)).sh.links == s.sh.links
    ensures Run(s, Stores(order)).sh.connected ==
            if order == [] then s.sh.connected else PcOf(s, order[|order| - 1]).next != {}
    decreases |order|
  {
    if order != [] {
      var s' := Next(s, ByThread(order[0], StoreFlag));
      assert Stores(order)[1..] == Stores(order[1..]);
      assert forall i :: 1 <= i < |order| ==> PcOf(s', order[i]) == PcOf(s, order[i]);
      RunStores(s', order[1..]);
    }
  }

  lemma {:induction false} SomeOrder(ts: set<nat>) returns (order: seq<nat>)
    ensures forall i, j :: 0 <= i < j < |order| ==> order[i] != order[j]
    ensures forall t :: t in order <==> t in ts
  {
    if ts == {} {
      order := [];
    } else {
      var t :| t in ts;
      order := SomeOrder(ts - {t});
      order := order + [t];
    }
  }

  /**
   Every order of the outstanding stores ends with the flag agreeing with the mask exactly if each of them
   stores that value.
   */
  lemma StoreOrderIrrelevantIff(s: State)
    requires Window(s) != {}
    ensures (forall order :: IsOrder(s, order) ==>
               IsRun(s, Stores(order)) && Run(s, Stores(order)).sh.connected == (Run(s, Stores(order)).sh.links != {}))
            <==> forall t :: t in Window(s) ==> (s.threads[t].next != {}) == (s.sh.links != {})
  {
    forall order | IsOrder(s, order)
      ensures IsRun(s, Stores(order)) && order != [] && Run(s, Stores(order)).sh.links == s.sh.links
      ensures var last := PcOf(s, order[|order| - 1]);
              last.Swapped? && Run(s, Stores(order)).sh.connected == (last.next != {})
    {
      forall i | 0 <= i < |order| ensures PcOf(s, order[i]).Swapped? {
        assert order[i] in order;
      }
      RunStores(s, order);
      var t :| t in Window(s);
      assert t in order;
    }
    forall order | IsOrder(s, order) ensures order[|order| - 1] in Window(s) {
      assert order[|order| - 1] in order;
    }
    forall t | t in Window(s)
      ensures exists order :: IsOrder(s, order) && order != [] && order[|order| - 1] == t
    {
      var rest := SomeOrder(Window(s) - {t});
      assert IsOrder(s, rest + [t]);
    }
  }
}
