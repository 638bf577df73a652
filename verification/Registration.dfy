/**
 The durable identity of a device and its registration (agent/config.go,
 agent/main.go), over any number of process lives.

 The configuration is written to a temporary file and renamed over the old one.
 Any file operation can fail, any call can lose its request or its response, and
 the process can crash between any two steps.  One process runs at a time, and
 the server answers a registration with the identifier it was sent.
 */
module Registration {
  import opened Common

  /** What a configuration file holds: the identity fields, or the torso of an interrupted write. */
  datatype File = Complete(id: Option<nat>, token: bool) | Torso

  datatype Net = RequestLost | ResponseLost | Delivered

  /** How far the process has come. */
  datatype Stage =
    | Loaded          // configuration read
    | Generated       // a new identity exists in memory only
    | Identified      // the identity is on disk
    | Confirmed       // the server answered; token not saved yet
    | Running

  datatype Process = Down | Up(id: Option<nat>, token: bool, stage: Stage, tmpWritten: bool)

  datatype State = State(
    main: Option<File>, tmp: Option<File>, process: Process,
    sent: set<nat>,            // identifiers ever sent to the server
    rows: set<nat>,            // identifiers the server has seen
    persisted: set<nat>,       // identifiers the configuration file ever held
    unreadable: nat)           // launches that could not read a file holding an identity

  datatype Step =
    | Launch(readOk: bool)
    | Generate(id: nat)
    | KeepIdentity
    | WriteTmp(ok: bool)
    | Rename(ok: bool)
    | Register(net: Net)
    | Telemetry(net: Net)
    | Crash

  const INITIAL: State := State(None, None, Down, {}, {}, {}, 0)

  /** The identity on disk. */
  function DiskId(s: State): Option<nat> {
    match s.main
    case Some(Complete(id, _)) => id
    case _ => None
  }

  /** A failed save is fatal, except while running. */
  function SaveFailed(p: Process): Process
    requires p.Up?
  {
    if p.stage.Running? then p.(tmpWritten := false) else Down
  }

  function Saved(p: Process): Process
    requires p.Up?
  {
    p.(tmpWritten := false,
       stage := match p.stage case Generated => Identified case Confirmed => Running case other => other)
  }

  predicate Enabled(s: State, step: Step) {
    match step
    case Launch(_) => s.process.Down?
    case Generate(_) => s.process.Up? && s.process.stage.Loaded? && !s.process.tmpWritten && s.process.id.None?
    case KeepIdentity => s.process.Up? && s.process.stage.Loaded? && !s.process.tmpWritten && s.process.id.Some?
    case WriteTmp(_) => s.process.Up? && !s.process.tmpWritten && !s.process.stage.Identified?
    case Rename(_) => s.process.Up? && s.process.tmpWritten
    case Register(_) => s.process.Up? && s.process.stage.Identified? && s.process.id.Some?
    case Telemetry(_) => s.process.Up? && s.process.stage.Running? && s.process.id.Some?
    case Crash => s.process.Up?
  }

  function Reached(net: Net, id: nat): set<nat> {
    if net.RequestLost? then {} else {id}
  }

  function Next(s: State, step: Step): State
    requires Enabled(s, step)
  {
    var p := s.process;
    match step
    case Launch(readOk) =>
      var u := if !readOk && DiskId(s).Some? then s.(unreadable := s.unreadable + 1) else s;
      (match s.main
       case Some(Complete(id, token)) =>
         if readOk then u.(process := Up(id, token, Loaded, false)) else u.(process := Up(None, false, Loaded, false))
       case _ => u.(process := Up(None, false, Loaded, false)))
    case Generate(id) => s.(process := p.(id := Some(id), stage := Generated))
    case KeepIdentity => s.(process := p.(stage := Identified))
    case WriteTmp(ok) =>
      if ok then s.(tmp := Some(Complete(p.id, p.token)), process := p.(tmpWritten := true))
      else s.(tmp := Some(Torso), process := SaveFailed(p))
    case Rename(ok) =>
      if ok then
        s.(main := s.tmp, tmp := None, process := Saved(p),
           persisted := s.persisted + match p.id case Some(id) => {id} case None => {})
      else s.(process := SaveFailed(p))
    case Register(net) =>
      var u := s.(sent := s.sent + {p.id.value}, rows := s.rows + Reached(net, p.id.value));
      if net.Delivered? then u.(process := p.(token := true, stage := Confirmed))
      else if p.token then u.(process := p.(stage := Running))
      else u.(process := Down)
    case Telemetry(net) => s.(sent := s.sent + {p.id.value}, rows := s.rows + Reached(net, p.id.value))
    case Crash => s.(process := Down)
  }

  predicate IsRun(s: State, steps: seq<Step>)
    decreases |steps|
  {
    steps == [] || (Enabled(s, steps[0]) && IsRun(Next(s, steps[0]), steps[1..]))
  }

  function Run(s: State, steps: seq<Step>): State
    requires IsRun(s, steps)
    decreases |steps|
  {
    if steps == [] then s else Run(Next(s, steps[0]), steps[1..])
  }

  // ----- The invariant -----

  /** The configuration file is whole, and the temporary file is what a process about to rename it wrote. */
  predicate FilesWhole(s: State) {
    && s.main != Some(Torso)
    && (s.process.Up? && s.process.tmpWritten ==>
          !s.process.stage.Identified? && s.tmp == Some(Complete(s.process.id, s.process.token)))
  }

  /** Nothing is sent before it is on disk. */
  predicate SentIsDurable(s: State) {
    && s.rows <= s.sent <= s.persisted
    && (DiskId(s).Some? ==> DiskId(s).value in s.persisted)
    && (s.process.Up? && s.process.stage in {Identified, Confirmed, Running} ==>
          s.process.id.Some? && s.process.id == DiskId(s))
    && (s.process.Up? && s.process.stage.Generated? ==> s.process.id.Some?)
    && (s.process.Up? && s.process.stage.Loaded? && s.process.id.Some? ==> s.process.id == DiskId(s))
  }

  /** The process does not know the identity on disk. */
  predicate Diverged(s: State) {
    s.process.Up? && DiskId(s).Some? && s.process.id != DiskId(s)
  }

  /** Each identity after the first is paid for by a launch that could not read the file. */
  predicate Budget(s: State) {
    |s.persisted| + (if DiskId(s).None? then 1 else 0) + (if Diverged(s) then 1 else 0) <= 1 + s.unreadable
  }

  predicate Inv(s: State) {
    FilesWhole(s) && SentIsDurable(s) && Budget(s)
  }

  lemma InvStep(s: State, step: Step)
    requires Inv(s) && Enabled(s, step)
    ensures Inv(Next(s, step))
  {
    if step.Rename? && step.ok && s.process.id.Some? {
      var id := s.process.id.value;
      assert |s.persisted + {id}| <= |s.persisted| + 1 by {
        if id !in s.persisted {
          assert s.persisted + {id} - {id} == s.persisted;
        } else {
          assert s.persisted + {id} == s.persisted;
        }
      }
      if s.process.id == DiskId(s) {
        assert s.persisted + {id} == s.persisted;
      }
    }
  }

  lemma {:induction false} InvRun(s: State, steps: seq<Step>)
    requires Inv(s) && IsRun(s, steps)
    ensures Inv(Run(s, steps))
    decreases |steps|
  {
    if steps != [] {
      InvStep(s, steps[0]);
      InvRun(Next(s, steps[0]), steps[1..]);
    }
  }

  lemma InitiallyInv()
    ensures Inv(INITIAL)
  {
  }

  // ----- Over all runs -----

  lemma Subset(a: set<nat>, b: set<nat>)
    requires a <= b
    ensures |a| <= |b|
  {
    assert b == a + (b - a);
  }

  /**
   Whatever crashes, file errors and lost calls occur, the number of identifiers
   the device has ever sent, and so the number of rows the server can hold for
   it, is at most one more than the number of launches that could not read an
   existing identity.  The configuration file is never a torso.
   */
  lemma IdentitiesBounded(steps: seq<Step>)
    requires IsRun(INITIAL, steps)
    ensures var e := Run(INITIAL, steps);
            |e.rows| <= |e.sent| <= 1 + e.unreadable && e.main != Some(Torso)
  {
    InitiallyInv();
    InvRun(INITIAL, steps);
    var e := Run(INITIAL, steps);
    Subset(e.rows, e.sent);
    Subset(e.sent, e.persisted);
  }

  lemma {:induction false} NoneUnreadable(s: State, steps: seq<Step>)
    requires IsRun(s, steps) && s.unreadable == 0 && Launch(false) !in steps
    ensures Run(s, steps).unreadable == 0
    decreases |steps|
  {
    if steps != [] {
      assert steps[0] in steps;
      NoneUnreadable(Next(s, steps[0]), steps[1..]);
    }
  }

  lemma AtMostOne(ids: set<nat>, a: nat, b: nat)
    requires |ids| <= 1 && a in ids && b in ids
    ensures a == b
  {
    assert a != b ==> |ids| >= |{a, b}| by {
      Subset({a, b}, ids);
    }
  }

  /** If every launch can read the file, all identifiers ever sent are equal, and equal to the one on disk. */
  lemma OneIdentity(steps: seq<Step>)
    requires IsRun(INITIAL, steps) && Launch(false) !in steps
    ensures var e := Run(INITIAL, steps);
            forall id :: id in e.sent ==> DiskId(e) == Some(id)
  {
    InitiallyInv();
    InvRun(INITIAL, steps);
    NoneUnreadable(INITIAL, steps);
    var e := Run(INITIAL, steps);
    forall id | id in e.sent ensures DiskId(e) == Some(id) {
      if DiskId(e).Some? {
        AtMostOne(e.persisted, id, DiskId(e).value);
      } else {
        Subset({id}, e.persisted);
      }
    }
  }

  /** A process life that cannot read its file, makes up an identity, saves it and sends it. */
  function FreshLife(id: nat): seq<Step> {
    [Launch(false), Generate(id), WriteTmp(true), Rename(true), Register(ResponseLost)]
  }

  lemma RunOne(s: State, step: Step, rest: seq<Step>)
    requires Enabled(s, step)
    ensures IsRun(s, [step] + rest) <==> IsRun(Next(s, step), rest)
    ensures IsRun(Next(s, step), rest) ==> Run(s, [step] + rest) == Run(Next(s, step), rest)
  {
  }

  lemma LifeRegisters(s: State, id: nat)
    requires s.process.Down? && (s.main.Some? ==> s.main.value.Complete?)
    ensures var steps := FreshLife(id);
            IsRun(s, steps) &&
            var e := Run(s, steps);
            && e.process.Down? && e.main == Some(Complete(Some(id), false))
            && e.rows == s.rows + {id} && e.unreadable == s.unreadable + if DiskId(s).Some? then 1 else 0
  {
    var steps := FreshLife(id);
    var s1 := Next(s, steps[0]);
    var s2 := Next(s1, steps[1]);
    var s3 := Next(s2, steps[2]);
    var s4 := Next(s3, steps[3]);
    var e := s4.(process := Down, sent := s4.sent + {id}, rows := s4.rows + {id});
    assert s3.process.id == s4.process.id == Some(id);
    assert Enabled(s4, steps[4]) && Next(s4, steps[4]) == e;
    hide Next, Enabled;
    RunOne(s4, steps[4], []);
    RunOne(s3, steps[3], steps[4..]);
    RunOne(s2, steps[2], steps[3..]);
    RunOne(s1, steps[1], steps[2..]);
    RunOne(s, steps[0], steps[1..]);
    assert [steps[4]] + [] == steps[4..] && [steps[3]] + steps[4..] == steps[3..];
    assert [steps[2]] + steps[3..] == steps[2..] && [steps[1]] + steps[2..] == steps[1..] &&
        [steps[0]] + steps[1..] == steps;
  }

  /** The bound is sharp: `n` launches that cannot read the file can leave the server with `n + 1` rows. */
  lemma {:induction false} BoundIsReached(n: nat) returns (steps: seq<Step>)
    ensures IsRun(INITIAL, steps)
    ensures var e := Run(INITIAL, steps);
            && e.unreadable == n && |e.rows| == n + 1 && (forall id :: id in e.rows ==> id <= n)
            && e.process.Down? && e.main.Some? && e.main.value.Complete? && DiskId(e).Some?
  {
    if n == 0 {
      steps := FreshLife(0);
      LifeRegisters(INITIAL, 0);
      assert Run(INITIAL, steps).rows == {0};
    } else {
      var before := BoundIsReached(n - 1);
      var s := Run(INITIAL, before);
      LifeRegisters(s, n);
      RunConcat(INITIAL, before, FreshLife(n));
      steps := before + FreshLife(n);
      assert Run(INITIAL, steps).rows == s.rows + {n} && n !in s.rows;
    }
  }

  // ----- The running program -----

  function SaveSteps(writeOk: bool, renameOk: bool): seq<Step> {
    if writeOk then [WriteTmp(true), Rename(renameOk)] else [WriteTmp(false)]
  }

  /** The start of one process life, from a freshly loaded configuration to the first beat. */
  function StartSteps(known: bool, newID: nat, write1: bool, rename1: bool, net: Net, write2: bool,
      rename2: bool): seq<Step> {
    (if known then [KeepIdentity] else [Generate(newID)] + SaveSteps(write1, rename1)) +
    if known || (write1 && rename1)
    then [Register(net)] + if net.Delivered? then SaveSteps(write2, rename2) else []
    else []
  }

  /** The configuration object and the files behind it, kept beside the state of the whole system. */
  class DeviceConfig {
    var deviceID: Option<nat>
    var token: bool
    var main: Option<File>
    var tmp: Option<File>
    ghost var world: State

    /** The object is the one of the running process, outside a save. */
    ghost predicate Valid()
      reads this
    {
      && main == world.main && tmp == world.tmp
      && world.process.Up? && !world.process.tmpWritten
      && deviceID == world.process.id && token == world.process.token
    }

    /** Writes the temporary file and renames it; either can fail. */
    method Save(writeOk: bool, renameOk: bool) returns (ok: bool)
      requires Valid() && !world.process.stage.Identified?
      modifies `main, `tmp, `world
      ensures ok == (writeOk && renameOk)
      ensures main == world.main && tmp == world.tmp
      ensures IsRun(old(world), SaveSteps(writeOk, renameOk)) && world == Run(old(world), SaveSteps(writeOk, renameOk))
      ensures if ok then world.process == Saved(old(world).process) else world.process == SaveFailed(old(world).process)
      ensures ok ==> main == Some(Complete(deviceID, token))
    {
      TwoSteps(world, WriteTmp(true), Rename(renameOk));
      OneStep(world, WriteTmp(false));
      if !writeOk {
        tmp := Some(Torso);
        world := Next(world, WriteTmp(false));
        return false;
      }
      tmp := Some(Complete(deviceID, token));
      world := Next(Next(world, WriteTmp(true)), Rename(renameOk));
      if renameOk {
        main, tmp := tmp, None;
      }
      return renameOk;
    }

    /** Creates and persists an identity if there is none; false when that failed, which is fatal. */
    method EnsureDeviceIdentity(newID: nat, writeOk: bool, renameOk: bool) returns (ok: bool)
      requires Valid() && world.process.stage.Loaded?
      modifies `deviceID, `main, `tmp, `world
      ensures main == world.main && tmp == world.tmp
      ensures ok == (old(deviceID).Some? || (writeOk && renameOk))
      ensures ok ==> Valid() && world.process.stage.Identified? && deviceID.Some?
      ensures !ok ==> deviceID == None && world.process.Down?
      ensures var steps :=
                if old(deviceID).Some? then [KeepIdentity] else [Generate(newID)] + SaveSteps(writeOk, renameOk);
              IsRun(old(world), steps) && world == Run(old(world), steps)
    {
      if deviceID.Some? {
        OneStep(world, KeepIdentity);
        world := Next(world, KeepIdentity);
        return true;
      }
      ghost var before := world;
      deviceID := Some(newID);
      world := Next(world, Generate(newID));
      ok := Save(writeOk, renameOk);
      assert ([Generate(newID)] + SaveSteps(writeOk, renameOk))[1..] == SaveSteps(writeOk, renameOk);
      if !ok {
        deviceID := None;
      }
    }

    /** The registration sequence at start-up; false when the process has to give up. */
    method Start(newID: nat, write1: bool, rename1: bool, net: Net, write2: bool, rename2: bool) returns (ok: bool)
      requires Valid() && world.process.stage.Loaded?
      modifies this
      ensures var steps := StartSteps(old(deviceID).Some?, newID, write1, rename1, net, write2, rename2);
              IsRun(old(world), steps) && world == Run(old(world), steps)
      ensures main == world.main && tmp == world.tmp
      ensures ok ==> Valid() && world.process.stage.Running?
      ensures !ok ==> world.process.Down?
      ensures ok <==>
              && (old(deviceID).Some? || (write1 && rename1))
              && if net == Delivered then write2 && rename2 else old(token)
      ensures ok && net == Delivered ==> token && main == Some(Complete(deviceID, true))
    {
      ghost var first := if deviceID.Some? then [KeepIdentity] else [Generate(newID)] + SaveSteps(write1, rename1);
      ok := EnsureDeviceIdentity(newID, write1, rename1);
      if !ok {
        assert first + [] == first;
        return;
      }
      ghost var mid := world;
      OneStep(world, Register(net));
      world := Next(world, Register(net));
      if !net.Delivered? {
        ok := token;
        RunConcat(old(world), first, [Register(net)]);
        assert [Register(net)] + [] == [Register(net)];
        return;
      }
      token := true;
      ok := Save(write2, rename2);
      assert ([Register(net)] + SaveSteps(write2, rename2))[1..] == SaveSteps(write2, rename2);
      assert IsRun(mid, [Register(net)] + SaveSteps(write2, rename2));
      RunConcat(old(world), first, [Register(net)] + SaveSteps(write2, rename2));
    }
  }

  lemma OneStep(s: State, a: Step)
    requires Enabled(s, a)
    ensures IsRun(s, [a]) && Run(s, [a]) == Next(s, a)
  {
  }

  lemma TwoSteps(s: State, a: Step, b: Step)
    requires Enabled(s, a) && Enabled(Next(s, a), b)
    ensures IsRun(s, [a, b]) && Run(s, [a, b]) == Next(Next(s, a), b)
  {
    OneStep(Next(s, a), b);
    assert [a, b][1..] == [b];
  }

  lemma {:induction false} RunConcat(s: State, a: seq<Step>, b: seq<Step>)
    requires IsRun(s, a) && IsRun(Run(s, a), b)
    ensures IsRun(s, a + b) && Run(s, a + b) == Run(Run(s, a), b)
    decreases |a|
  {
    hide Next, Enabled;
    if a == [] {
      assert a + b == b;
    } else {
      RunConcat(Next(s, a[0]), a[1..], b);
      assert (a + b)[1..] == a[1..] + b;
    }
  }

  // ----- Exactly when a registered device keeps one identity -----

  /** A device at rest whose identity is on disk and the only one ever sent. */
  predicate Registered(s: State, id: nat) {
    s.process.Down? && DiskId(s) == Some(id) && s.sent == {id}
  }

  /** One process life up to its first beat, from a launch that can read the file or not. */
  function Life(readOk: bool, newID: nat, write1: bool, rename1: bool, net: Net, write2: bool,
      rename2: bool): seq<Step> {
    [Launch(readOk)] + StartSteps(readOk, newID, write1, rename1, net, write2, rename2)
  }

  /** The state in which the process has an identity on disk, before it registers. */
  lemma LifeUpToIdentity(s: State, id: nat, readOk: bool, newID: nat, write1: bool, rename1: bool)
    requires Registered(s, id)
    ensures var first := if readOk then [KeepIdentity] else [Generate(newID)] + SaveSteps(write1, rename1);
            var m := Next(s, Launch(readOk));
            IsRun(m, first) &&
            var e := Run(m, first);
            && e.sent == {id}
            && (readOk ==> e.process.Up? && e.process.stage.Identified? && e.process.id == Some(id))
            && (!readOk && write1 && rename1 ==>
                e.process.Up? && e.process.stage.Identified? && e.process.id == Some(newID))
            && (!readOk && !(write1 && rename1) ==> e.process.Down?)
  {
    var m := Next(s, Launch(readOk));
    if readOk {
      OneStep(m, KeepIdentity);
    } else {
      var g := Next(m, Generate(newID));
      OneStep(m, Generate(newID));
      if write1 {
        TwoSteps(g, WriteTmp(true), Rename(rename1));
      } else {
        OneStep(g, WriteTmp(false));
      }
      RunConcat(m, [Generate(newID)], SaveSteps(write1, rename1));
    }
  }

  lemma RegisterSends(s: State, net: Net, write2: bool, rename2: bool)
    requires s.process.Up? && s.process.stage.Identified? && s.process.id.Some? && !s.process.tmpWritten
    ensures var last := [Register(net)] + if net.Delivered? then SaveSteps(write2, rename2) else [];
            IsRun(s, last) && Run(s, last).sent == s.sent + {s.process.id.value}
  {
    var r := Next(s, Register(net));
    OneStep(s, Register(net));
    if net.Delivered? {
      if write2 {
        TwoSteps(r, WriteTmp(true), Rename(rename2));
      } else {
        OneStep(r, WriteTmp(false));
      }
      RunConcat(s, [Register(net)], SaveSteps(write2, rename2));
    } else {
      assert [Register(net)] + [] == [Register(net)];
    }
  }

  /**
   One life of a registered device, whatever the network and the files do: it keeps one
   identity if and only if its launch could read the file or a made-up one was not saved.
   */
  lemma LifeKeepsIdentityIff(s: State, id: nat, readOk: bool, newID: nat, write1: bool, rename1: bool,
                             net: Net, write2: bool, rename2: bool)
    requires Inv(s) && Registered(s, id) && newID != id
    ensures var steps := Life(readOk, newID, write1, rename1, net, write2, rename2);
            IsRun(s, steps) && (Run(s, steps).sent == {id} <==> readOk || !(write1 && rename1))
  {
    var first := if readOk then [KeepIdentity] else [Generate(newID)] + SaveSteps(write1, rename1);
    var last :=
      if readOk || (write1 && rename1)
      then [Register(net)] + if net.Delivered? then SaveSteps(write2, rename2) else []
      else [];
    var m := Next(s, Launch(readOk));
    LifeUpToIdentity(s, id, readOk, newID, write1, rename1);
    InvStep(s, Launch(readOk));
    InvRun(m, first);
    var e := Run(m, first);
    hide Next, Enabled, SaveSteps;
    if e.process.Up? {
      assert !e.process.tmpWritten by { NotWriting(e); }
      RegisterSends(e, net, write2, rename2);
    }
    assert IsRun(e, last);
    RunConcat(m, first, last);
    assert Life(readOk, newID, write1, rename1, net, write2, rename2) == [Launch(readOk)] + (first + last);
    assert Enabled(s, Launch(readOk)) by { CanLaunch(s, readOk); }
    RunOne(s, Launch(readOk), first + last);
    assert newID in Run(s, [Launch(readOk)] + (first + last)).sent || readOk || !(write1 && rename1);
  }

  lemma NotWriting(s: State)
    requires Inv(s) && s.process.Up? && s.process.stage.Identified?
    ensures !s.process.tmpWritten
  {
  }

  lemma CanLaunch(s: State, readOk: bool)
    requires s.process.Down?
    ensures Enabled(s, Launch(readOk))
  {
  }

  // ----- When a process goes on running -----

  /**
   The registration sequence ends running exactly if an identity was there or was saved, and
   then either the call was delivered and saved, or it was lost and a token was there at launch.  A
   delivered and saved registration leaves a file with its token.
   */
  lemma StartRunsIff(s: State, newID: nat, write1: bool, rename1: bool, net: Net, write2: bool, rename2: bool)
    requires Inv(s) && s.process.Up? && s.process.stage.Loaded? && !s.process.tmpWritten
    ensures var steps := StartSteps(s.process.id.Some?, newID, write1, rename1, net, write2, rename2);
            IsRun(s, steps) &&
            var e := Run(s, steps);
            && ((e.process.Up? && e.process.stage == Running) <==>
                  && (s.process.id.Some? || (write1 && rename1))
                  && (if net == Delivered then write2 && rename2 else s.process.token))
            && (e.process.Up? ==> e.process.stage == Running && e.process.id.Some?)
            && (e.process.Up? && net == Delivered ==> e.main == Some(Complete(e.process.id, true)))
            && (e.process.Up? && net != Delivered ==> e.process.token)
  {
    var known := s.process.id.Some?;
    var first := if known then [KeepIdentity] else [Generate(newID)] + SaveSteps(write1, rename1);
    IdentityStep(s, newID, write1, rename1);
    var m := Run(s, first);
    if known || (write1 && rename1) {
      RegisterStep(m, net, write2, rename2);
      RunConcat(s, first, [Register(net)] + if net.Delivered? then SaveSteps(write2, rename2) else []);
    } else {
      assert first + [] == first;
    }
  }

  lemma IdentityStep(s: State, newID: nat, write1: bool, rename1: bool)
    requires s.process.Up? && s.process.stage.Loaded? && !s.process.tmpWritten
    ensures var first := if s.process.id.Some? then [KeepIdentity] else [Generate(newID)] + SaveSteps(write1, rename1);
            IsRun(s, first) &&
            var m := Run(s, first);
            if s.process.id.Some? || (write1 && rename1)
            then
              && m.process.Up? && m.process.stage == Identified && !m.process.tmpWritten
              && m.process.id == (if s.process.id.Some? then s.process.id else Some(newID)) &&
                  m.process.token == s.process.token
            else m.process.Down?
  {
    if s.process.id.Some? {
      OneStep(s, KeepIdentity);
    } else {
      var g := Next(s, Generate(newID));
      OneStep(s, Generate(newID));
      if write1 {
        TwoSteps(g, WriteTmp(true), Rename(rename1));
      } else {
        OneStep(g, WriteTmp(false));
      }
      RunConcat(s, [Generate(newID)], SaveSteps(write1, rename1));
    }
  }

  lemma RegisterStep(m: State, net: Net, write2: bool, rename2: bool)
    requires m.process.Up? && m.process.stage == Identified && !m.process.tmpWritten && m.process.id.Some?
    ensures var last := [Register(net)] + if net.Delivered? then SaveSteps(write2, rename2) else [];
            IsRun(m, last) &&
            var e := Run(m, last);
            if net == Delivered
            then
              if write2 && rename2
              then
                && e.process == Up(m.process.id, true, Running, false)
                && e.main == Some(Complete(m.process.id, true))
              else e.process == Down
            else if m.process.token then e.process == Up(m.process.id, true, Running, false)
            else e.process == Down
  {
    var r := Next(m, Register(net));
    OneStep(m, Register(net));
    if net.Delivered? {
      if write2 {
        TwoSteps(r, WriteTmp(true), Rename(rename2));
      } else {
        OneStep(r, WriteTmp(false));
      }
      RunConcat(m, [Register(net)], SaveSteps(write2, rename2));
    } else {
      assert [Register(net)] + [] == [Register(net)];
    }
  }

  /**
   Once a registration was delivered and saved, a later launch that can read the file runs although its call is
   lost.
   */
  lemma TokenSurvivesLostCall(s: State, id: nat, newID: nat, net: Net)
    requires Inv(s) && s.process.Down? && s.main == Some(Complete(Some(id), true)) && net != Delivered
    ensures var steps := Life(true, newID, true, true, net, true, true);
            IsRun(s, steps) &&
            var e := Run(s, steps).process; e.Up? && e.stage == Running && e.id == Some(id) && e.token
  {
    var m := Next(s, Launch(true));
    InvStep(s, Launch(true));
    StartRunsIff(m, newID, true, true, net, true, true);
    IdentityStep(m, newID, true, true);
    RegisterStep(Run(m, [KeepIdentity]), net, true, true);
    RunConcat(m, [KeepIdentity], [Register(net)] + []);
    RunOne(s, Launch(true), StartSteps(true, newID, true, true, net, true, true));
    assert StartSteps(true, newID, true, true, net, true, true) == [KeepIdentity] + ([Register(net)] + []);
  }

  // ----- Over runs -----

  /** The step puts a made-up identity on disk. */
  predicate Replaces(s: State, step: Step) {
    step == Rename(true) && s.process.Up? && s.process.stage.Generated?
  }

  predicate Sends(step: Step) {
    step.Register? || step.Telemetry?
  }

  /** Some call to the server follows the first save of a made-up identity. */
  predicate SendsReplaced(s: State, steps: seq<Step>)
    requires IsRun(s, steps)
    decreases |steps|
  {
    steps != [] &&
    if Replaces(s, steps[0])
    then exists i :: 1 <= i < |steps| && Sends(steps[i])
    else SendsReplaced(Next(s, steps[0]), steps[1..])
  }

  /** Only the one identity is on disk, in the process or sent, besides one made up and not saved yet. */
  predicate OnlyThis(s: State, id: nat) {
    && s.sent == {id} && (DiskId(s).Some? ==> DiskId(s) == Some(id))
    && (s.process.Up? && s.process.id.Some? ==> (s.process.id == Some(id) <==> !s.process.stage.Generated?))
  }

  /** The identity is neither on disk nor in the process, and so never sent again. */
  predicate Without(s: State, id: nat) {
    DiskId(s) != Some(id) && (s.process.Up? ==> s.process.id != Some(id))
  }

  lemma StepWithout(s: State, step: Step, id: nat)
    requires Inv(s) && Enabled(s, step) && Without(s, id) && step != Generate(id)
    ensures var t := Next(s, step);
            && Without(t, id) && s.sent <= t.sent
            && (if Sends(step) then exists x :: x in t.sent && x != id else t.sent == s.sent)
  {
    if Sends(step) {
      assert s.process.id.value in Next(s, step).sent;
    }
  }

  lemma {:induction false} RunWithout(s: State, steps: seq<Step>, id: nat)
    requires Inv(s) && IsRun(s, steps) && Without(s, id) && Generate(id) !in steps
    ensures s.sent <= Run(s, steps).sent
    ensures if exists i :: 0 <= i < |steps| && Sends(steps[i]) then exists x :: x in Run(s, steps).sent && x != id
            else Run(s, steps).sent == s.sent
    decreases |steps|
  {
    if steps != [] {
      assert steps[0] in steps;
      StepWithout(s, steps[0], id);
      InvStep(s, steps[0]);
      var t := Next(s, steps[0]);
      hide Next, Enabled, Inv, Without, Sends;
      RunWithout(t, steps[1..], id);
      if i :| 0 <= i < |steps| && Sends(steps[i]) {
        if i > 0 {
          assert Sends(steps[1..][i - 1]);
        }
      } else {
        assert forall i :: 0 <= i < |steps[1..]| ==> steps[1..][i] == steps[i + 1];
      }
    }
  }

  lemma StepOnlyThis(s: State, step: Step, id: nat)
    requires Inv(s) && Enabled(s, step) && OnlyThis(s, id) && step != Generate(id)
    ensures var t := Next(s, step); if Replaces(s, step) then Without(t, id) && t.sent == {id} else OnlyThis(t, id)
  {
  }

  lemma {:induction false} OnlyThisIff(s: State, steps: seq<Step>, id: nat)
    requires Inv(s) && IsRun(s, steps) && OnlyThis(s, id) && Generate(id) !in steps
    ensures Run(s, steps).sent == {id} <==> !SendsReplaced(s, steps)
    decreases |steps|
  {
    if steps != [] {
      assert steps[0] in steps;
      StepOnlyThis(s, steps[0], id);
      InvStep(s, steps[0]);
      var t := Next(s, steps[0]);
      hide Next, Enabled, Inv, Without, OnlyThis, Sends;
      if Replaces(s, steps[0]) {
        RunWithout(t, steps[1..], id);
        assert (exists i :: 1 <= i < |steps| && Sends(steps[i])) <==>
            exists i :: 0 <= i < |steps[1..]| && Sends(steps[1..][i]) by {
          if i :| 1 <= i < |steps| && Sends(steps[i]) {
            assert Sends(steps[1..][i - 1]);
          }
          if i :| 0 <= i < |steps[1..]| && Sends(steps[1..][i]) {
            assert Sends(steps[i + 1]);
          }
        }
      } else {
        OnlyThisIff(t, steps[1..], id);
      }
    }
  }

  lemma {:induction false} ReadableNeverReplaces(s: State, steps: seq<Step>, id: nat)
    requires Inv(s) && IsRun(s, steps) && Launch(false) !in steps && DiskId(s) == Some(id)
    requires s.process.Up? ==> s.process.id == Some(id) && !s.process.stage.Generated?
    ensures !SendsReplaced(s, steps)
    decreases |steps|
  {
    if steps != [] {
      assert steps[0] in steps;
      InvStep(s, steps[0]);
      ReadableNeverReplaces(Next(s, steps[0]), steps[1..], id);
    }
  }

  /**
   Over any number of further lives of a registered device that makes up fresh
   identities only, all identifiers ever sent are equal if and only if the server is
   never called once a made-up identity was saved; which takes a launch that could not
   read the file.
   */
  lemma StaysOneIff(s: State, steps: seq<Step>, id: nat)
    requires Inv(s) && Registered(s, id) && IsRun(s, steps) && Generate(id) !in steps
    ensures Run(s, steps).sent == {id} <==> !SendsReplaced(s, steps)
    ensures SendsReplaced(s, steps) ==> Launch(false) in steps
  {
    OnlyThisIff(s, steps, id);
    if Launch(false) !in steps {
      ReadableNeverReplaces(s, steps, id);
    }
  }

  // ----- What comes next -----

  /**
   A stopped device can only be launched.  A process can crash at any moment, and reports once it is running.
   Otherwise a save under way is finished first; an identity is made up only if none was loaded; and the device
   registers when its identity is on disk.
   */
  lemma WhatComesNext(s: State, step: Step)
    requires Inv(s)
    ensures Enabled(s, step) <==>
            match s.process
            case Down => step.Launch?
            case Up(id, _, stage, tmpWritten) =>
              if step == Crash then true
              else if step.Telemetry? then stage == Running && id != None
              else if tmpWritten then step.Rename?
              else if stage == Identified then step.Register? && id != None
              else step.WriteTmp? || (stage == Loaded && if id == None then step.Generate? else step == KeepIdentity)
  {
  }

  // ----- What the server hears, and what a save leaves -----

  /** The call's request reaches the server. */
  predicate Arrives(step: Step) {
    (step.Register? && step.net != RequestLost) || (step.Telemetry? && step.net != RequestLost)
  }

  /** The identities of the calls of a run that pass the filter. */
  function Calls(s: State, steps: seq<Step>, passes: Step -> bool): set<nat>
    requires IsRun(s, steps)
    decreases |steps|
  {
    if steps == [] then {}
    else
      (if passes(steps[0]) && s.process.Up? && s.process.id.Some? then {s.process.id.value} else {}) +
      Calls(Next(s, steps[0]), steps[1..], passes)
  }

  /** The server hears exactly of the identities of the calls that arrive, and no other is ever sent. */
  lemma {:induction false} HeardIffArrives(s: State, steps: seq<Step>)
    requires IsRun(s, steps)
    ensures Run(s, steps).sent == s.sent + Calls(s, steps, Sends)
    ensures Run(s, steps).rows == s.rows + Calls(s, steps, Arrives)
    decreases |steps|
  {
    if steps != [] {
      HeardIffArrives(Next(s, steps[0]), steps[1..]);
    }
  }

  /** A save replaces the file as a whole or leaves it, and says what it leaves beside it. */
  lemma SaveLeaves(s: State, writeOk: bool, renameOk: bool)
    requires s.process.Up? && !s.process.tmpWritten && !s.process.stage.Identified?
    ensures IsRun(s, SaveSteps(writeOk, renameOk))
    ensures var e := Run(s, SaveSteps(writeOk, renameOk));
            && (writeOk && renameOk ==> e.main == Some(Complete(s.process.id, s.process.token)) && e.tmp == None)
            && (!writeOk ==> e.main == s.main && e.tmp == Some(Torso))
            && (writeOk && !renameOk ==>
                  e.main == s.main && e.tmp == Some(Complete(s.process.id, s.process.token)))
            && (e.process.Up? <==> (writeOk && renameOk) || s.process.stage.Running?)
  {
    OneSave(s, writeOk, renameOk);
  }

  lemma OneSave(s: State, writeOk: bool, renameOk: bool)
    requires s.process.Up? && !s.process.tmpWritten && !s.process.stage.Identified?
    ensures IsRun(s, SaveSteps(writeOk, renameOk))
    ensures Run(s, SaveSteps(writeOk, renameOk)) ==
            if writeOk then Next(Next(s, WriteTmp(true)), Rename(renameOk)) else Next(s, WriteTmp(false))
  {
    if writeOk {
      TwoSteps(s, WriteTmp(true), Rename(renameOk));
    }
  }
}
