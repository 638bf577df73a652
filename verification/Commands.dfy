/**
 The phone-home command protocol (agent/main.go, agent/device.go): device, lossy
 network and server as a state machine.

 The device sends the identifiers it has handled with every beat.  The server
 forgets those, answers with commands that are still pending, and redelivers
 them until they are acknowledged.  A request or its response can be lost; a lost
 request can also reach the server late.  The process can exit on purpose, crash
 at any point, and be relaunched.
 */
module Commands {
  import opened Common

  datatype Kind = Enable | Disable | Restart | Update | Unknown

  datatype Command = Command(id: int, kind: Kind)

  datatype Net = RequestLost | ResponseLost | Delivered

  /** A telemetry response: the wanted decoder switch, whether its settings differ from the device's, the commands. */
  datatype Reply = Reply(enabled: bool, changesConfig: bool, batch: seq<Command>)

  /** Where the process stands inside `phoneHome`. */
  datatype Phase = Idle | Handling(rest: seq<Command>) | Acking(id: int) | Down

  datatype Exit = Exit(id: int, carried: set<int>, due: set<int>)

  datatype State = State(
    pending: map<int, Kind>,     // server: commands to redeliver
    issued: set<int>,            // server: every identifier ever used
    sent: set<set<int>>,         // network: acknowledgements ever sent, any of which may still arrive
    acked: seq<int>,             // device: handled, not known to be confirmed
    enabled: bool,               // device: whether decoders run
    phase: Phase,
    handled: seq<int>,           // every call of handleCommand
    confirmed: set<int>,         // acknowledged in a call the device saw succeed
    forgotten: set<int>,         // contents of `acked` at a crash
    exposed: set<int>,           // those of them the server still held
    asked: set<int>,             // commands whose handling asked for an exit
    exits: seq<Exit>,            // intentional exits
    postponed: set<int>)         // commands whose exit was given up because its call failed

  datatype Step =
    | Issue(c: Command)
    | LateDelivery(acks: set<int>)
    | Beat(net: Net, reply: Reply)
    | Handle(staged: bool)       // `staged`: whether an update was installed
    | EndBeat
    | Ack(net: Net)
    | Crash
    | Relaunch

  const INITIAL: State := State(map[], {}, {}, [], true, Idle, [], {}, {}, {}, {}, [], {})

  function Elems(s: seq<int>): set<int> {
    set x | x in s
  }

  /** A response lists pending commands, each once. */
  predicate IsBatch(batch: seq<Command>, pending: map<int, Kind>) {
    && (forall c :: c in batch ==> c.id in pending && pending[c.id] == c.kind)
    && (forall i, j :: 0 <= i < j < |batch| ==> batch[i].id != batch[j].id)
  }

  predicate Exits(kind: Kind, staged: bool) {
    kind == Restart || (kind == Update && staged)
  }

  /** The decoder switch once a command has run. */
  function Switch(enabled: bool, kind: Kind): bool {
    match kind
    case Enable => true
    case Disable => false
    case _ => enabled
  }

  /** What the server still holds once a request carrying `acked` has, or has not, reached it. */
  function ServerAfter(s: State, net: Net): map<int, Kind> {
    if net == RequestLost then s.pending else s.pending - Elems(s.acked)
  }

  predicate Enabled(s: State, step: Step) {
    match step
    case Issue(c) => c.id !in s.issued
    case LateDelivery(acks) => acks in s.sent
    case Beat(net, reply) => s.phase.Idle? && (net.Delivered? ==> IsBatch(reply.batch, ServerAfter(s, net)))
    case Handle(_) => s.phase.Handling? && s.phase.rest != []
    case EndBeat => s.phase.Handling? && s.phase.rest == []
    case Ack(_) => s.phase.Acking?
    case Crash => !s.phase.Down?
    case Relaunch => s.phase.Down?
  }

  function Next(s: State, step: Step): State
    requires Enabled(s, step)
  {
    match step
    case Issue(c) => s.(pending := s.pending[c.id := c.kind], issued := s.issued + {c.id})
    case LateDelivery(acks) => s.(pending := s.pending - acks)
    case Beat(net, reply) =>
      var u := s.(pending := ServerAfter(s, net), sent := s.sent + {Elems(s.acked)});
      if net.Delivered?
      then u.(confirmed := s.confirmed + Elems(s.acked), acked := [], phase := Handling(reply.batch),
              enabled := reply.enabled || reply.changesConfig) // new settings bounce the decoders: off, then on
      else u
    case Handle(staged) =>
      var c := s.phase.rest[0];
      s.(acked := s.acked + [c.id], handled := s.handled + [c.id], enabled := Switch(s.enabled, c.kind),
         asked := if Exits(c.kind, staged) then s.asked + {c.id} else s.asked,
         phase := if Exits(c.kind, staged) then Acking(c.id) else Handling(s.phase.rest[1..]))
    case EndBeat => s.(phase := Idle)
    case Ack(net) =>
      var u := s.(pending := ServerAfter(s, net), sent := s.sent + {Elems(s.acked)});
      if net.Delivered?
      then u.(confirmed := s.confirmed + Elems(s.acked), acked := [], phase := Down,
              exits := s.exits + [Exit(s.phase.id, Elems(s.acked), Elems(s.handled) - s.confirmed)])
      else u.(phase := Idle, postponed := s.postponed + {s.phase.id})
    case Crash =>
      s.(acked := [], phase := Down, forgotten := s.forgotten + Elems(s.acked),
         exposed := s.exposed + (Elems(s.acked) * s.pending.Keys))
    case Relaunch => s.(phase := Idle, enabled := true)
  }

  predicate IsRun(s: State, steps: seq<Step>)
    decreases |steps|
  {
    steps == [] || (Enabled(s, steps[0]) && IsRun(Next(s, steps[0]), steps[1..]))
  }

  function Run(s: State, steps: seq<Step>): State
    requires IsRun(s, steps)
    decreases |steps|
  {
    if steps == [] then s else Run(Next(s, steps[0]), steps[1..])
  }

  // ----- The invariant -----

  /** Every command ever issued is still pending or has been handled; only handled ones can be acknowledged. */
  ghost predicate NothingDropped(s: State) {
    && (forall x :: x in s.issued <==> x in s.pending || x in s.handled)
    && (forall acks, x :: acks in s.sent && x in acks ==> x in s.handled)
  }

  /** `acked` lies between the handled, unconfirmed commands and those a crash has not made the device forget. */
  ghost predicate AckedTracks(s: State) {
    && (forall x :: x in s.acked ==> x in s.handled && x !in s.confirmed)
    && (forall x :: x in s.handled && x !in s.confirmed ==> x in s.acked || x in s.forgotten)
    && (forall x :: x in s.confirmed ==> x in s.handled && x !in s.pending)
    && s.exposed <= s.forgotten
  }

  /** A handled command the server still holds is about to be acknowledged, or a crash lost its acknowledgement. */
  ghost predicate NoReplay(s: State) {
    && (forall x :: x in s.handled && x in s.pending ==> x in s.acked || x in s.exposed)
    && (s.phase.Handling? ==>
          && (forall i, j :: 0 <= i < j < |s.phase.rest| ==> s.phase.rest[i].id != s.phase.rest[j].id)
          && (forall c :: c in s.phase.rest ==>
                c.id in s.issued && c.id !in s.confirmed && c.id !in s.acked &&
                    (c.id in s.handled ==> c.id in s.exposed)))
    && (s.phase.Acking? ==> s.phase.id in s.acked)
    && (s.phase.Down? ==> s.acked == [])
  }

  /** Only a command exposed by a crash has been handled twice. */
  ghost predicate OnlyExposedTwice(s: State) {
    forall i, j :: 0 <= i < j < |s.handled| && s.handled[i] == s.handled[j] ==> s.handled[i] in s.exposed
  }

  /** Each exit carried the exiting command and all that was due, and none of it is pending any more. */
  ghost predicate ExitsSafe(s: State) {
    forall e :: e in s.exits ==>
      && e.id in e.carried && e.carried <= e.due && e.carried <= s.confirmed
      && (forall x :: x in e.due ==> x in e.carried || x in s.forgotten)
  }

  ghost predicate Inv(s: State) {
    NothingDropped(s) && AckedTracks(s) && NoReplay(s) && OnlyExposedTwice(s) && ExitsSafe(s)
  }

  lemma HandleKeepsInv(s: State, staged: bool)
    requires Inv(s) && Enabled(s, Handle(staged))
    ensures Inv(Next(s, Handle(staged)))
  {
    var s', c := Next(s, Handle(staged)), s.phase.rest[0];
    assert c in s.phase.rest;
    if s'.phase.Handling? {
      forall d | d in s'.phase.rest ensures d in s.phase.rest && d.id != c.id {
        var i :| 0 <= i < |s'.phase.rest| && s'.phase.rest[i] == d;
        assert d == s.phase.rest[i + 1];
      }
    }
    forall i, j | 0 <= i < j < |s'.handled| && s'.handled[i] == s'.handled[j] ensures s'.handled[i] in s'.exposed {
      if j == |s.handled| {
        assert s.handled[i] in s.handled;
      }
    }
  }

  lemma AckKeepsInv(s: State, net: Net)
    requires Inv(s) && Enabled(s, Ack(net))
    ensures Inv(Next(s, Ack(net)))
  {
    var s' := Next(s, Ack(net));
    if net.Delivered? {
      var carried, due := Elems(s.acked), Elems(s.handled) - s.confirmed;
      assert s'.exits == s.exits + [Exit(s.phase.id, carried, due)];
      forall x | x in due ensures x in carried || x in s.forgotten {
        assert x in s.handled;
      }
      forall x | x in carried ensures x in due {
        assert x in s.acked;
      }
      forall e | e in s'.exits && e !in s.exits ensures e == Exit(s.phase.id, carried, due) {
      }
    }
  }

  lemma InvStep(s: State, step: Step)
    requires Inv(s) && Enabled(s, step)
    ensures Inv(Next(s, step))
  {
    match step
    case Handle(staged) => HandleKeepsInv(s, staged);
    case Ack(net) => AckKeepsInv(s, net);
    case _ =>
  }

  lemma {:induction false} InvRun(s: State, steps: seq<Step>)
    requires Inv(s) && IsRun(s, steps)
    ensures Inv(Run(s, steps))
    decreases |steps|
  {
    if steps != [] {
      InvStep(s, steps[0]);
      InvRun(Next(s, steps[0]), steps[1..]);
    }
  }

  lemma InitiallyInv()
    ensures Inv(INITIAL)
  {
  }

  // ----- Over all runs -----

  /** Crashes included: no unhandled command is ever dropped, and only one a crash exposed is handled twice. */
  lemma NeverDroppedOnlyExposedTwice(steps: seq<Step>)
    requires IsRun(INITIAL, steps)
    ensures var e := Run(INITIAL, steps);
            && (forall x :: x in e.issued ==> x in e.pending || x in e.handled)
            && (forall i, j :: 0 <= i < j < |e.handled| && e.handled[i] == e.handled[j] ==> e.handled[i] in e.exposed)
  {
    InitiallyInv();
    InvRun(INITIAL, steps);
  }

  lemma {:induction false} NothingForgotten(s: State, steps: seq<Step>)
    requires IsRun(s, steps) && Crash !in steps && s.forgotten == s.exposed == {}
    requires s.phase.Down? ==> s.exits != []
    ensures Run(s, steps).forgotten == Run(s, steps).exposed == {}
    ensures Run(s, steps).phase.Down? ==> Run(s, steps).exits != []
    decreases |steps|
  {
    if steps != [] {
      assert steps[0] in steps;
      NothingForgotten(Next(s, steps[0]), steps[1..]);
    }
  }

  /**
   Without crashes every command is handled at most once, whatever the network
   loses and however often the process is restarted on purpose; and what the
   device has handled but not seen confirmed is exactly the content of `acked`.
   */
  lemma ExactlyOnce(steps: seq<Step>)
    requires IsRun(INITIAL, steps) && Crash !in steps
    ensures var e := Run(INITIAL, steps);
            && Distinct(e.handled)
            && (forall x :: x in e.issued <==> x in e.pending || x in e.handled)
            && (forall x :: x in e.acked <==> x in e.handled && x !in e.confirmed)
  {
    InitiallyInv();
    InvRun(INITIAL, steps);
    NothingForgotten(INITIAL, steps);
  }

  /**
   Without crashes every exit followed a confirmed call that carried exactly the
   commands handled since the last confirmed beat, the exiting one among them;
   a process that is down has left nothing unconfirmed, and every command it
   did not handle is still pending.
   */
  lemma ExitsAreSafe(steps: seq<Step>)
    requires IsRun(INITIAL, steps) && Crash !in steps
    ensures var e := Run(INITIAL, steps);
            && (forall x :: x in e.exits ==>
                x.id in x.carried && x.carried == x.due && forall id :: id in x.carried ==> id !in e.pending)
            && (e.phase.Down? ==> e.exits != [] && forall x :: x in e.issued ==> (x in e.pending <==> x !in e.handled))
  {
    var e := Run(INITIAL, steps);
    InitiallyInv();
    InvRun(INITIAL, steps);
    NothingForgotten(INITIAL, steps);
    forall x | x in e.exits ensures x.carried == x.due {
      assert forall id :: id in x.due ==> id in x.carried;
    }
  }

  predicate Exited(s: State, id: int) {
    exists e :: e in s.exits && e.id == id
  }

  /**
   A command that asked for an exit has got it, has been given up, or is being announced: exactly one of the
   three.
   */
  ghost predicate AskedIsDecided(s: State) {
    && (forall id :: id in s.asked ==> id in s.handled && (id in s.postponed || Exited(s, id) || s.phase == Acking(id)))
    && (forall id :: id in s.postponed || Exited(s, id) || s.phase == Acking(id) ==> id in s.asked)
    && (forall id :: id in s.postponed ==> !Exited(s, id) && s.phase != Acking(id))
    && (forall id :: Exited(s, id) ==> s.phase != Acking(id))
  }

  lemma SameExits(s: State, t: State)
    requires s.exits == t.exits
    ensures forall id :: Exited(t, id) <==> Exited(s, id)
  {
  }

  lemma OneMoreExit(s: State, t: State, e: Exit)
    requires t.exits == s.exits + [e]
    ensures forall id :: Exited(t, id) <==> Exited(s, id) || id == e.id
  {
    assert forall x :: x in t.exits <==> x in s.exits || x == e;
  }

  lemma HandleAsked(s: State, staged: bool)
    requires NoReplay(s) && AskedIsDecided(s) && Enabled(s, Handle(staged)) && s.exposed == {}
    ensures AskedIsDecided(Next(s, Handle(staged)))
  {
    hide Exited;
    assert s.phase.rest[0] in s.phase.rest;
    SameExits(s, Next(s, Handle(staged)));
  }

  lemma AckAsked(s: State, net: Net)
    requires AskedIsDecided(s) && Enabled(s, Ack(net))
    ensures AskedIsDecided(Next(s, Ack(net)))
  {
    hide Exited, Elems;
    var t := Next(s, Ack(net));
    if net.Delivered? {
      OneMoreExit(s, t, t.exits[|s.exits|]);
    } else {
      SameExits(s, t);
    }
  }

  lemma AskedStep(s: State, step: Step)
    requires Inv(s) && AskedIsDecided(s) && Enabled(s, step) && s.exposed == {} && step != Crash
    ensures AskedIsDecided(Next(s, step))
  {
    hide Inv, Exited, Elems, NoReplay;
    NoReplayOf(s);
    if step.Handle? {
      HandleAsked(s, step.staged);
    } else if step.Ack? {
      AckAsked(s, step.net);
    } else {
      SameExits(s, Next(s, step));
    }
  }

  lemma NoReplayOf(s: State)
    requires Inv(s)
    ensures NoReplay(s)
  {
  }

  lemma {:induction false} AskedRun(s: State, steps: seq<Step>)
    requires Inv(s) && AskedIsDecided(s) && IsRun(s, steps) && Crash !in steps
    requires s.forgotten == s.exposed == {} && (s.phase.Down? ==> s.exits != [])
    ensures AskedIsDecided(Run(s, steps))
    decreases |steps|
  {
    if steps != [] {
      assert steps[0] in steps;
      InvStep(s, steps[0]);
      AskedStep(s, steps[0]);
      hide Inv, AskedIsDecided;
      AskedRun(Next(s, steps[0]), steps[1..]);
    }
  }

  /**
   Without crashes a restart or installed update that was handled leads to an exit
   if and only if the call announcing it was seen to succeed; one that was given up is
   never handled again, and never leads to an exit later.
   */
  lemma ExitHappensIff(steps: seq<Step>)
    requires IsRun(INITIAL, steps) && Crash !in steps
    ensures var e := Run(INITIAL, steps);
            && Distinct(e.handled)
            && forall id :: id in e.asked && e.phase != Acking(id) ==> (Exited(e, id) <==> id !in e.postponed)
  {
    InitiallyInv();
    AskedRun(INITIAL, steps);
    ExactlyOnce(steps);
  }

  // ----- The decoder switch -----

  /** What a step says about the decoder switch: a delivered beat, an enable, a disable or a relaunch; nothing else. */
  predicate Decides(s: State, step: Step, on: bool)
    requires Enabled(s, step)
  {
    match step
    case Beat(net, reply) => net == Delivered && on == (reply.enabled || reply.changesConfig)
    case Handle(_) =>
      (on && s.phase.rest[0].kind == Enable) || (!on && s.phase.rest[0].kind == Disable)
    case Relaunch => on
    case _ => false
  }

  /** No step of a run says anything about the switch. */
  predicate Undecided(s: State, steps: seq<Step>)
    requires IsRun(s, steps)
    decreases |steps|
  {
    steps == [] ||
    (!Decides(s, steps[0], true) && !Decides(s, steps[0], false) && Undecided(Next(s, steps[0]), steps[1..]))
  }

  lemma StepSwitches(s: State, step: Step)
    requires Enabled(s, step)
    ensures var t := Next(s, step);
            && (Decides(s, step, true) ==> t.enabled) && (Decides(s, step, false) ==> !t.enabled)
            && (!Decides(s, step, true) && !Decides(s, step, false) ==> t.enabled == s.enabled)
  {
  }

  lemma {:induction false} UndecidedKeeps(s: State, steps: seq<Step>)
    requires IsRun(s, steps) && Undecided(s, steps)
    ensures Run(s, steps).enabled == s.enabled
    decreases |steps|
  {
    if steps != [] {
      StepSwitches(s, steps[0]);
      UndecidedKeeps(Next(s, steps[0]), steps[1..]);
    }
  }

  /** A step with a say on the switch in a run, and nothing after it. */
  predicate LastSay(s: State, steps: seq<Step>, n: nat, on: bool)
    requires IsRun(s, steps) && n < |steps|
    decreases n
  {
    if n == 0 then Decides(s, steps[0], on) && Undecided(Next(s, steps[0]), steps[1..])
    else LastSay(Next(s, steps[0]), steps[1..], n - 1, on)
  }

  lemma {:induction false} SwitchFollowsLastSay(s: State, steps: seq<Step>, n: nat, on: bool)
    requires IsRun(s, steps) && n < |steps| && LastSay(s, steps, n, on)
    ensures Run(s, steps).enabled == on
    decreases n
  {
    if n == 0 {
      StepSwitches(s, steps[0]);
      UndecidedKeeps(Next(s, steps[0]), steps[1..]);
    } else {
      SwitchFollowsLastSay(Next(s, steps[0]), steps[1..], n - 1, on);
    }
  }

  lemma {:induction false} SomeLastSay(s: State, steps: seq<Step>) returns (n: nat, on: bool)
    requires IsRun(s, steps) && !Undecided(s, steps)
    ensures n < |steps| && LastSay(s, steps, n, on)
    decreases |steps|
  {
    var t := Next(s, steps[0]);
    if Undecided(t, steps[1..]) {
      n, on := 0, Decides(s, steps[0], true);
    } else {
      n, on := SomeLastSay(t, steps[1..]);
      n := n + 1;
    }
  }

  ghost predicate SaidLast(s: State, steps: seq<Step>, on: bool)
    requires IsRun(s, steps)
  {
    exists n: nat :: n < |steps| && LastSay(s, steps, n, on)
  }

  /**
   Over any run the decoder switch is what the last delivered beat, enable, disable or
   relaunch said: a beat what its reply wants, but on if its settings changed; an enable and a
   relaunch on; a disable off.  Before all of them it is on.
   */
  lemma SwitchIsLastSay(steps: seq<Step>)
    requires IsRun(INITIAL, steps)
    ensures Run(INITIAL, steps).enabled <==> Undecided(INITIAL, steps) || SaidLast(INITIAL, steps, true)
    ensures !Run(INITIAL, steps).enabled <==> SaidLast(INITIAL, steps, false)
  {
    if Undecided(INITIAL, steps) {
      UndecidedKeeps(INITIAL, steps);
    } else {
      var n, on := SomeLastSay(INITIAL, steps);
      assert SaidLast(INITIAL, steps, on);
    }
    forall on | SaidLast(INITIAL, steps, on) ensures Run(INITIAL, steps).enabled == on {
      var n: nat :| n < |steps| && LastSay(INITIAL, steps, n, on);
      SwitchFollowsLastSay(INITIAL, steps, n, on);
    }
  }

  /**
   Handling a command records it and asks for an exit exactly for a restart and for an
   update that was installed; otherwise the rest of the batch follows.
   */
  lemma HandleAsksIff(s: State, staged: bool)
    requires Enabled(s, Handle(staged))
    ensures var (c, t) := (s.phase.rest[0], Next(s, Handle(staged)));
            && t.acked == s.acked + [c.id] && t.handled == s.handled + [c.id]
            && (c.kind == Restart || (c.kind == Update && staged) ==> t.phase == Acking(c.id))
            && (c.kind != Restart && !(c.kind == Update && staged) ==> t.phase == Handling(s.phase.rest[1..]))
  {
  }

  // ----- When a command is handled again -----

  /** Handling the commands in `rest` can get to this one: no restart comes before it. */
  predicate Reaches(rest: seq<Command>, id: int)
    decreases |rest|
  {
    rest != [] && (rest[0].id == id || (rest[0].kind != Restart && Reaches(rest[1..], id)))
  }

  /** A command is still at the server, or in the batch at hand with no restart before it. */
  predicate ComesAgain(s: State, id: int) {
    id in s.pending || (s.phase.Handling? && Reaches(s.phase.rest, id))
  }

  /** The steps handle a command, once more if it was handled before. */
  predicate HandlesAgain(s: State, steps: seq<Step>, id: int) {
    IsRun(s, steps) && s.handled <= Run(s, steps).handled && id in Run(s, steps).handled[|s.handled|..]
  }

  lemma {:induction false} ReachesMember(rest: seq<Command>, id: int)
    requires Reaches(rest, id)
    ensures exists c :: c in rest && c.id == id
    decreases |rest|
  {
    if rest[0].id == id {
      assert rest[0] in rest;
    } else {
      ReachesMember(rest[1..], id);
      var c :| c in rest[1..] && c.id == id;
      assert c in rest;
    }
  }

  lemma AbsentFromSuffix(a: seq<int>, b: seq<int>, c: seq<int>, id: int)
    requires a <= b <= c && id !in b[|a|..] && id !in c[|b|..]
    ensures a <= c && id !in c[|a|..]
  {
  }

  lemma GoneStaysGone(s: State, step: Step, id: int)
    requires NothingDropped(s) && Enabled(s, step) && id in s.handled && !ComesAgain(s, id)
    ensures var m := Next(s, step);
            !ComesAgain(m, id) && s.handled <= m.handled && id in m.handled && id !in m.handled[|s.handled|..]
  {
    var m := Next(s, step);
    if step.Beat? && step.net.Delivered? && Reaches(step.reply.batch, id) {
      ReachesMember(step.reply.batch, id);
    }
  }

  /** A handled command that cannot come again is not handled in any continuation. */
  lemma {:induction false} NeverAgain(s: State, steps: seq<Step>, id: int)
    requires Inv(s) && IsRun(s, steps) && id in s.handled && !ComesAgain(s, id)
    ensures var e := Run(s, steps); !ComesAgain(e, id) && s.handled <= e.handled && id !in e.handled[|s.handled|..]
    decreases |steps|
  {
    if steps != [] {
      InvStep(s, steps[0]);
      GoneStaysGone(s, steps[0], id);
      hide Next, Enabled, Inv, ComesAgain;
      var m := Next(s, steps[0]);
      NeverAgain(m, steps[1..], id);
      AbsentFromSuffix(s.handled, m.handled, Run(m, steps[1..]).handled, id);
    }
  }

  /** Handling on through the batch, with no update installed, gets to the command. */
  lemma {:induction false} HandleOn(s: State, id: int) returns (steps: seq<Step>)
    requires s.phase.Handling? && Reaches(s.phase.rest, id)
    ensures HandlesAgain(s, steps, id)
    decreases |s.phase.rest|
  {
    var m := Next(s, Handle(false));
    assert m.handled == s.handled + [s.phase.rest[0].id];
    if s.phase.rest[0].id == id {
      steps := [Handle(false)];
      assert steps[1..] == [] && Run(s, steps) == m;
      assert m.handled[|s.handled|] == id;
    } else {
      var more := HandleOn(m, id);
      steps := [Handle(false)] + more;
      assert steps[1..] == more;
      assert Run(s, steps) == Run(m, more);
      LaterSuffix(s.handled, m.handled, Run(m, more).handled, id);
    }
  }

  lemma LaterSuffix(a: seq<int>, b: seq<int>, c: seq<int>, id: int)
    requires a <= b <= c && id in c[|b|..]
    ensures a <= c && id in c[|a|..]
  {
    assert c[|a|..] == c[|a|..|b|] + c[|b|..];
  }

  lemma HandlesLater(s: State, step: Step, steps: seq<Step>, id: int)
    requires Enabled(s, step) && Next(s, step).handled == s.handled && HandlesAgain(Next(s, step), steps, id)
    ensures HandlesAgain(s, [step] + steps, id)
  {
    hide Enabled, Next;
    assert ([step] + steps)[1..] == steps;
  }

  lemma FetchState(down: State, id: int)
    requires down.phase.Down? && down.acked == [] && id in down.pending
    ensures var (c, up) := (Command(id, down.pending[id]), Next(down, Relaunch));
            var beat := Beat(Delivered, Reply(true, false, [c]));
            && up.handled == down.handled && Enabled(up, beat)
            && Next(up, beat).phase == Handling([c]) && Next(up, beat).handled == down.handled
  {
    assert Elems([]) == {} && down.pending - {} == down.pending;
  }

  lemma Fetch(down: State, id: int) returns (steps: seq<Step>)
    requires down.phase.Down? && down.acked == [] && id in down.pending
    ensures HandlesAgain(down, steps, id)
  {
    hide HandlesAgain;
    var beat := Beat(Delivered, Reply(true, false, [Command(id, down.pending[id])]));
    FetchState(down, id);
    var up := Next(down, Relaunch);
    var more := HandleOn(Next(up, beat), id);
    HandlesLater(up, beat, more, id);
    HandlesLater(down, Relaunch, [beat] + more, id);
    steps := [Relaunch] + ([beat] + more);
  }

  lemma AfterCrash(s: State)
    requires !s.phase.Down?
    ensures Enabled(s, Crash)
    ensures var d := Next(s, Crash); d.phase.Down? && d.acked == [] && d.pending == s.pending && d.handled == s.handled
  {
  }

  /** A crash, a relaunch and a beat make the process handle a command the server still holds. */
  lemma CrashAndRefetch(s: State, id: int) returns (steps: seq<Step>)
    requires Inv(s) && id in s.pending
    ensures HandlesAgain(s, steps, id)
  {
    hide HandlesAgain, Next, Enabled;
    if s.phase.Down? {
      steps := Fetch(s, id);
    } else {
      AfterCrash(s);
      var fetch := Fetch(Next(s, Crash), id);
      HandlesLater(s, Crash, fetch, id);
      steps := [Crash] + fetch;
    }
  }

  /**
   Exactly when a handled command can be handled again, crashes included: some
   continuation does so if and only if the server still holds it or it is in the batch
   at hand with no restart before it.
   */
  lemma HandledAgainIff(s: State, id: int)
    requires Inv(s) && id in s.handled
    ensures (exists steps :: HandlesAgain(s, steps, id)) <==> ComesAgain(s, id)
  {
    if ComesAgain(s, id) {
      var steps;
      if id in s.pending {
        steps := CrashAndRefetch(s, id);
      } else {
        steps := HandleOn(s, id);
      }
      assert HandlesAgain(s, steps, id);
    } else if steps :| HandlesAgain(s, steps, id) {
      NeverAgain(s, steps, id);
    }
  }

  lemma {:induction false} StaysConfirmed(s: State, steps: seq<Step>, id: int)
    requires IsRun(s, steps) && id in s.confirmed
    ensures id in Run(s, steps).confirmed
    decreases |steps|
  {
    if steps != [] {
      StaysConfirmed(Next(s, steps[0]), steps[1..], id);
    }
  }

  /** A confirmed command never comes back: in no continuation, crashes included, is it pending or handled again. */
  lemma ConfirmedNeverReturns(s: State, steps: seq<Step>, id: int)
    requires Inv(s) && IsRun(s, steps) && id in s.confirmed
    ensures var e := Run(s, steps);
            id in e.confirmed && id !in e.pending && s.handled <= e.handled && id !in e.handled[|s.handled|..]
  {
    if s.phase.Handling? && Reaches(s.phase.rest, id) {
      ReachesMember(s.phase.rest, id);
    }
    NeverAgain(s, steps, id);
    StaysConfirmed(s, steps, id);
  }

  // ----- What the server redelivers, and what comes next -----

  /** The commands a step lets the server know to be handled: a request that reaches it, in time or late. */
  function Told(s: State, step: Step): set<int> {
    match step
    case LateDelivery(acks) => acks
    case Beat(net, _) => if net == RequestLost then {} else Elems(s.acked)
    case Ack(net) => if net == RequestLost then {} else Elems(s.acked)
    case _ => {}
  }

  function ToldIn(s: State, steps: seq<Step>): set<int>
    requires IsRun(s, steps)
    decreases |steps|
  {
    if steps == [] then {} else Told(s, steps[0]) + ToldIn(Next(s, steps[0]), steps[1..])
  }

  lemma PendingStep(s: State, step: Step)
    requires Inv(s) && Enabled(s, step)
    ensures var t := Next(s, step);
            && t.issued == s.issued + (if step.Issue? then {step.c.id} else {})
            && t.pending.Keys == s.pending.Keys + (t.issued - s.issued) - Told(s, step)
            && Told(s, step) <= s.issued
  {
    forall x | x in Told(s, step) ensures x in s.issued {
      if step.LateDelivery? {
        assert step.acks in s.sent;
      } else {
        assert x in s.acked;
      }
      assert x in s.handled;
    }
  }

  lemma JoinTold(p0: set<int>, p1: set<int>, p2: set<int>, i0: set<int>, i1: set<int>, i2: set<int>,
      told: set<int>, later: set<int>)
    requires i0 <= i1 <= i2 && told <= i0
    requires p1 == p0 + (i1 - i0) - told && p2 == p1 + (i2 - i1) - later
    ensures p2 == p0 + (i2 - i0) - (told + later)
  {
  }

  lemma {:induction false} PendingRun(s: State, steps: seq<Step>)
    requires Inv(s) && IsRun(s, steps)
    ensures var e := Run(s, steps);
            && s.issued <= e.issued
            && e.pending.Keys == s.pending.Keys + (e.issued - s.issued) - ToldIn(s, steps)
            && ToldIn(s, steps) <= e.issued
    decreases |steps|
  {
    if steps != [] {
      var t := Next(s, steps[0]);
      PendingStep(s, steps[0]);
      InvStep(s, steps[0]);
      PendingRun(t, steps[1..]);
      var (told, later) := (Told(s, steps[0]), ToldIn(t, steps[1..]));
      assert ToldIn(s, steps) == told + later;
      var e := Run(s, steps);
      JoinTold(s.pending.Keys, t.pending.Keys, e.pending.Keys, s.issued, t.issued, e.issued, told, later);
    }
  }

  /** The server redelivers exactly the commands no request that reached it, in time or late, acknowledged. */
  lemma PendingIffNotTold(steps: seq<Step>)
    requires IsRun(INITIAL, steps)
    ensures var e := Run(INITIAL, steps); e.pending.Keys == e.issued - ToldIn(INITIAL, steps)
  {
    InitiallyInv();
    PendingRun(INITIAL, steps);
  }

  /**
   The process is relaunched if and only if it is down, and can crash whenever it is not.  A batch is handled to
   its end before the next beat, unless a command asks for an exit, which is announced first.
   */
  lemma WhatComesNext(s: State, step: Step)
    requires !step.Issue? && !step.LateDelivery?
    ensures Enabled(s, step) <==>
            if step == Crash then s.phase != Down
            else
              match s.phase
              case Idle =>
                step.Beat? &&
                (step.net == Delivered ==>
                   IsBatch(step.reply.batch, map x | x in s.pending && x !in s.acked :: s.pending[x]))
              case Handling(rest) => if rest == [] then step == EndBeat else step.Handle?
              case Acking(_) => step.Ack?
              case Down => step == Relaunch
  {
    assert s.pending - Elems(s.acked) == map x | x in s.pending && x !in s.acked :: s.pending[x];
  }

  // ----- What does not hold -----

  predicate Goes(s: State, step: Step, t: State) {
    Enabled(s, step) && Next(s, step) == t
  }

  lemma {:induction false} FollowRun(states: seq<State>, steps: seq<Step>)
    requires |states| == |steps| + 1 && forall i :: 0 <= i < |steps| ==> Goes(states[i], steps[i], states[i + 1])
    ensures IsRun(states[0], steps) && Run(states[0], steps) == states[|steps|]
    decreases |steps|
  {
    if steps != [] {
      assert Goes(states[0], steps[0], states[1]);
      hide Enabled, Next;
      forall i | 0 <= i < |steps[1..]| ensures Goes(states[1..][i], steps[1..][i], states[1..][i + 1]) {
        assert Goes(states[i + 1], steps[i + 1], states[i + 2]);
      }
      FollowRun(states[1..], steps[1..]);
    }
  }

  lemma SmallSets(c: Command)
    requires c.id == 7
    ensures Elems([]) == {} && Elems([7]) == {7}
    ensures [c][1..] == [] && map[7 := c.kind] - {} == map[7 := c.kind] && map[7 := c.kind] - {7} == map[]
  {
  }

  /** A crash between handling and acknowledging makes a command run twice. */
  lemma CrashCanReplay() returns (steps: seq<Step>)
    ensures IsRun(INITIAL, steps) && Run(INITIAL, steps).handled == [7, 7]
  {
    var c := Command(7, Enable);
    var beat := Beat(Delivered, Reply(true, false, [c]));
    SmallSets(c);
    var s1 := INITIAL.(pending := map[7 := Enable], issued := {7});
    var s2 := s1.(sent := {{}}, phase := Handling([c]));
    var s3 := s2.(acked := [7], handled := [7], phase := Handling([]));
    var s4 := s3.(acked := [], phase := Down, forgotten := {7}, exposed := {7});
    var s5 := s4.(phase := Idle);
    var s6 := s5.(phase := Handling([c]));
    var s7 := s6.(acked := [7], handled := [7, 7], phase := Handling([]));
    assert Goes(INITIAL, Issue(c), s1);
    assert Goes(s1, beat, s2);
    assert Goes(s2, Handle(false), s3);
    assert Goes(s3, Crash, s4);
    assert Goes(s4, Relaunch, s5);
    assert Goes(s5, beat, s6);
    assert Goes(s6, Handle(false), s7);
    hide Goes;
    steps := [Issue(c), beat, Handle(false), Crash, Relaunch, beat, Handle(false)];
    FollowRun([INITIAL, s1, s2, s3, s4, s5, s6, s7], steps);
  }

  /**
   A restart whose acknowledgement fails is not tried again: the next beat
   confirms it, so the server forgets it, and the process has not gone down.
   */
  lemma RestartCanBeLost() returns (steps: seq<Step>)
    ensures IsRun(INITIAL, steps)
    ensures var e := Run(INITIAL, steps);
            && e.handled == [7] && e.postponed == {7} && 7 in e.confirmed && e.exits == [] && e.phase == Idle &&
                e.pending == map[]
  {
    var c := Command(7, Restart);
    var beat, empty := Beat(Delivered, Reply(true, false, [c])), Beat(Delivered, Reply(true, false, []));
    SmallSets(c);
    var s1 := INITIAL.(pending := map[7 := Restart], issued := {7});
    var s2 := s1.(sent := {{}}, phase := Handling([c]));
    var s3 := s2.(acked := [7], handled := [7], asked := {7}, phase := Acking(7));
    var s4 := s3.(pending := map[], sent := {{}, {7}}, phase := Idle, postponed := {7});
    var s5 := s4.(acked := [], confirmed := {7}, phase := Handling([]));
    var s6 := s5.(phase := Idle);
    assert Goes(INITIAL, Issue(c), s1);
    assert Goes(s1, beat, s2);
    assert Goes(s2, Handle(false), s3);
    assert Goes(s3, Ack(ResponseLost), s4);
    assert Goes(s4, empty, s5);
    assert Goes(s5, EndBeat, s6);
    hide Goes;
    steps := [Issue(c), beat, Handle(false), Ack(ResponseLost), empty, EndBeat];
    FollowRun([INITIAL, s1, s2, s3, s4, s5, s6], steps);
  }

  // ----- One beat of the running program -----

  /** The steps of handling a batch: up to the first command that ends the process, or all of it. */
  function HandlingSteps(batch: seq<Command>, staged: seq<bool>, ackNet: Net): seq<Step>
    requires |staged| == |batch|
  {
    if batch == [] then [EndBeat]
    else if Exits(batch[0].kind, staged[0]) then [Handle(staged[0]), Ack(ackNet)]
    else [Handle(staged[0])] + HandlingSteps(batch[1..], staged[1..], ackNet)
  }

  function BeatSteps(net: Net, reply: Reply, staged: seq<bool>, ackNet: Net): seq<Step>
    requires |staged| == |reply.batch|
  {
    [Beat(net, reply)] + if net.Delivered? then HandlingSteps(reply.batch, staged, ackNet) else []
  }

  lemma {:induction false} HandlingIsRun(s: State, staged: seq<bool>, ackNet: Net)
    requires s.phase.Handling? && |staged| == |s.phase.rest|
    ensures IsRun(s, HandlingSteps(s.phase.rest, staged, ackNet))
    decreases |staged|
  {
    if s.phase.rest != [] {
      HandlingUnfolds(s, staged, ackNet);
      if !Exits(s.phase.rest[0].kind, staged[0]) {
        HandlingIsRun(Next(s, Handle(staged[0])), staged[1..], ackNet);
      }
    }
  }

  lemma HandlingUnfolds(s: State, staged: seq<bool>, ackNet: Net)
    requires s.phase.Handling? && |staged| == |s.phase.rest| && staged != []
    ensures var steps, m := HandlingSteps(s.phase.rest, staged, ackNet), Next(s, Handle(staged[0]));
            if Exits(s.phase.rest[0].kind, staged[0])
            then m.phase.Acking? && IsRun(s, steps) && Run(s, steps) == Next(m, Ack(ackNet))
            else
              && m.phase == Handling(s.phase.rest[1..])
              && (IsRun(s, steps) <==> IsRun(m, HandlingSteps(s.phase.rest[1..], staged[1..], ackNet)))
              && (IsRun(s, steps) ==> Run(s, steps) == Run(m, HandlingSteps(s.phase.rest[1..], staged[1..], ackNet)))
  {
    var m := Next(s, Handle(staged[0]));
    if Exits(s.phase.rest[0].kind, staged[0]) {
      assert [Handle(staged[0]), Ack(ackNet)][1..] == [Ack(ackNet)] && [Ack(ackNet)][1..] == [];
      assert IsRun(m, [Ack(ackNet)]) && Run(m, [Ack(ackNet)]) == Next(m, Ack(ackNet));
    }
  }

  /** What the steps do to the variables of the device. */
  lemma HandleEffect(s: State, staged: bool, ackNet: Net)
    requires s.phase.Handling? && s.phase.rest != []
    ensures Enabled(s, Handle(staged))
    ensures var c, m := s.phase.rest[0], Next(s, Handle(staged));
            && m.acked == s.acked + [c.id] && m.enabled == Switch(s.enabled, c.kind) && !m.phase.Down?
            && (Exits(c.kind, staged) ==>
                  Enabled(m, Ack(ackNet)) &&
                  var e := Next(m, Ack(ackNet));
                  e.enabled == m.enabled && e.acked == (if ackNet.Delivered? then [] else m.acked) &&
                  e.phase == if ackNet.Delivered? then Down else Idle)
  {
  }

  lemma EndOfBatch(s: State, ackNet: Net)
    requires s.phase == Handling([])
    ensures Enabled(s, EndBeat) && Next(s, EndBeat) == s.(phase := Idle)
    ensures Run(s, HandlingSteps([], [], ackNet)) == Next(s, EndBeat)
  {
  }

  /** The variables of the phone-home loop, kept beside the state of the whole system. */
  class PhoneHome {
    var acked: seq<int>
    var enabled: bool
    var exited: bool
    ghost var world: State

    ghost predicate Valid()
      reads this
    {
      acked == world.acked && enabled == world.enabled && exited == world.phase.Down?
    }

    constructor ()
      ensures Valid() && world == INITIAL
    {
      acked, enabled, exited, world := [], true, false, INITIAL;
    }

    /** Runs a command; true when the process has to exit for it. */
    method HandleCommand(c: Command, staged: bool) returns (exits: bool)
      modifies `enabled
      ensures exits == Exits(c.kind, staged) && enabled == Switch(old(enabled), c.kind)
      ensures c.kind == Enable ==> enabled
      ensures c.kind == Disable ==> !enabled
      ensures c.kind != Enable && c.kind != Disable ==> enabled == old(enabled)
      ensures exits <==> c.kind == Restart || (c.kind == Update && staged)
    {
      match c.kind
      case Enable => enabled, exits := true, false;
      case Disable => enabled, exits := false, false;
      case Restart => exits := true;
      case Update => exits := staged;
      case Unknown => exits := false;
    }

    /**
     One beat.  `net` and `reply` are the outcome of the telemetry call,
     `staged[i]` says whether command `i`, if an update, was installed, and
     `ackNet` is the outcome of the call that precedes an exit.
     */
    method OneBeat(net: Net, reply: Reply, staged: seq<bool>, ackNet: Net)
      requires Valid() && world.phase.Idle? && |staged| == |reply.batch|
      requires net.Delivered? ==> IsBatch(reply.batch, ServerAfter(world, net))
      modifies this
      ensures Valid() && (world.phase.Idle? || world.phase.Down?)
      ensures IsRun(old(world), BeatSteps(net, reply, staged, ackNet))
      ensures world == Run(old(world), BeatSteps(net, reply, staged, ackNet))
    {
      world := Next(world, Beat(net, reply));
      if !net.Delivered? {
        return;
      }
      acked := [];
      enabled := reply.enabled;
      if reply.changesConfig {
        enabled := false;
        enabled := true;
      }
      assert BeatSteps(net, reply, staged, ackNet)[1..] == HandlingSteps(reply.batch, staged, ackNet);
      HandleBatch(reply.batch, staged, ackNet);
    }

    /** Marks one command as handled and runs it; an exit is announced to the server first. */
    method HandleOne(c: Command, staged: bool, ackNet: Net) returns (exits: bool)
      requires Valid() && world.phase.Handling? && world.phase.rest != [] && world.phase.rest[0] == c
      modifies this
      ensures Valid() && exits == Exits(c.kind, staged) && Enabled(old(world), Handle(staged))
      ensures var m := Next(old(world), Handle(staged));
              if exits
              then Enabled(m, Ack(ackNet)) && world == Next(m, Ack(ackNet)) && (world.phase.Idle? || world.phase.Down?)
              else world == m
    {
      HandleEffect(world, staged, ackNet);
      hide Next, Enabled, Switch, Exits;
      acked := acked + [c.id];
      exits := HandleCommand(c, staged);
      world := Next(world, Handle(staged));
      if exits {
        world := Next(world, Ack(ackNet));
        if ackNet.Delivered? {
          acked := [];
          exited := true;
        }
      }
    }

    method HandleBatch(batch: seq<Command>, staged: seq<bool>, ackNet: Net)
      requires Valid() && world.phase == Handling(batch) && |staged| == |batch|
      modifies this
      ensures Valid() && (world.phase.Idle? || world.phase.Down?)
      ensures IsRun(old(world), HandlingSteps(batch, staged, ackNet))
      ensures world == Run(old(world), HandlingSteps(batch, staged, ackNet))
    {
      HandlingIsRun(world, staged, ackNet);
      hide Run, IsRun, HandlingSteps, Next, Enabled, Exits;
      assert batch[0..] == batch && staged[0..] == staged;
      var i := 0;
      while i < |batch|
        invariant 0 <= i <= |batch| && Valid()
        invariant world.phase == Handling(batch[i..])
        invariant IsRun(world, HandlingSteps(batch[i..], staged[i..], ackNet))
        invariant Run(world, HandlingSteps(batch[i..], staged[i..], ackNet)) ==
                  Run(old(world), HandlingSteps(batch, staged, ackNet))
      {
        HandlingUnfolds(world, staged[i..], ackNet);
        var exits := HandleOne(batch[i], staged[i], ackNet);
        if exits {
          return;
        }
        assert batch[i..][1..] == batch[i + 1..] && staged[i..][1..] == staged[i + 1..];
        i := i + 1;
      }
      EndOfBatch(world, ackNet);
      world := Next(world, EndBeat);
    }
  }
}
