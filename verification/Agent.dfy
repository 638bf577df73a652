/**
 The whole agent's tick: enumeration with its cache, role assignment with its
 store, and the supervisor, composed (agent/decoders.go:203-313).
 */
module Agent {
  import opened Common
  import opened Enumeration
  import opened Roles
  import RS = RoleStore
  import opened PortPlan
  import opened Supervisor
  import opened Lifecycle
  import opened Ticks
  import opened Relays

  type Store = seq<RS.DongleRole>

  /** What happens to the agent: a tick with what it finds, a role push from the server, or the end of its parent. */
  datatype Input =
    | Scanned(enabled: bool, scan: Scan, programs: RS.Programs, heard: seq<string>)
    | Pushed(roles: Store)
    | Ended

  datatype State = State(cache: Cache, roles: Store, sup: Sup)

  function Keys(dongles: seq<Dongle>): (keys: seq<string>)
    ensures |keys| == |dongles|
  {
    seq(|dongles|, i requires 0 <= i < |dongles| => Key(dongles[i]))
  }

  /** What listening to each of `n` dongles would answer; ADS-B is the fallback. */
  function Answers(heard: seq<string>, n: nat): (answers: seq<string>)
    ensures |answers| == n
  {
    seq(n, i requires 0 <= i < n => if i < |heard| then heard[i] else ADSB)
  }

  function WithRoles(dongles: seq<Dongle>, out: seq<RS.Assignment>): (a: seq<RoleAssignment>)
    requires |out| == |dongles|
    ensures |a| == |dongles|
  {
    seq(|dongles|, i requires 0 <= i < |dongles| => RoleAssignment(dongles[i], out[i].role))
  }

  /** The role store and assignments for a list of dongles. */
  function RolesOf(f: RS.Fixed, roles: Store, programs: RS.Programs, dongles: seq<Dongle>,
      heard: seq<string>): (r: RS.Assigned)
    ensures |r.out| == |dongles|
  {
    var r := RS.AssignAll(f, roles, programs, Keys(dongles), Answers(heard, |dongles|));
    OneEach(f, roles, programs, Keys(dongles), Answers(heard, |dongles|));
    r
  }

  lemma {:induction false} OneEach(f: RS.Fixed, roles: Store, programs: RS.Programs, keys: seq<string>,
      heard: seq<string>)
    requires |heard| == |keys|
    ensures |RS.AssignAll(f, roles, programs, keys, heard).out| == |keys|
    decreases |keys|
  {
    if keys != [] {
      OneEach(f, RS.AssignOne(f, roles, programs, keys[0], heard[0]).roles, programs, keys[1..], heard[1..]);
    }
  }

  /** What the supervisor sees of an input. */
  function EventsOf(f: RS.Fixed, s: State, input: Input): seq<Event> {
    match input
    case Pushed(_) => []
    case Ended => [ParentDone]
    case Scanned(enabled, scan, programs, heard) =>
      if !enabled then [Tick(false, [])]
      else
        var dongles := Listed(scan, s.cache);
        [Tick(true, WithRoles(dongles, RolesOf(f, s.roles, programs, dongles, heard).out))]
  }

  function AfterInput(f: RS.Fixed, s: State, input: Input): State {
    match input
    case Pushed(roles) => s.(roles := RS.ApplyRoles(s.roles, roles))
    case Ended => s.(sup := After(s.sup, ParentDone))
    case Scanned(enabled, scan, programs, heard) =>
      if !enabled then s.(sup := After(s.sup, Tick(false, [])))
      else
        var dongles := Listed(scan, s.cache);
        var r := RolesOf(f, s.roles, programs, dongles, heard);
        State(CacheOf(scan, s.cache), r.roles, After(s.sup, Tick(true, WithRoles(dongles, r.out))))
  }

  /** The keys an input listens to. */
  function ProbedBy(f: RS.Fixed, s: State, input: Input): seq<string> {
    if !input.Scanned? || !input.enabled then []
    else RolesOf(f, s.roles, input.programs, Listed(input.scan, s.cache), input.heard).probed
  }

  /** The agent's objects, and the tick that ties them together. */
  class Agent {
    const enumerator: Enumerator
    const config: RS.DeviceConfig
    const manager: DecoderManager

    function Snapshot(): State
      reads this, enumerator, config, manager
    {
      State(enumerator.cache, config.roles, manager.State())
    }

    constructor (enumerator: Enumerator, config: RS.DeviceConfig, manager: DecoderManager)
      ensures this.enumerator == enumerator && this.config == config && this.manager == manager
    {
      this.enumerator, this.config, this.manager := enumerator, config, manager;
    }

    /** One tick; `heard` is what listening to each dongle found would answer. */
    method DoTick(scan: Scan, programs: RS.Programs, heard: seq<string>) returns (probed: seq<string>)
      modifies enumerator, config`roles, manager
      ensures Snapshot() == AfterInput(RS.Fixed(config.localRoles, config.defaultRole), old(Snapshot()),
                                       Scanned(old(manager.enabled), scan, programs, heard))
      ensures manager.enabled == old(manager.enabled)
      ensures probed == ProbedBy(RS.Fixed(config.localRoles, config.defaultRole), old(Snapshot()),
                                 Scanned(old(manager.enabled), scan, programs, heard))
    {
      ghost var f := RS.Fixed(config.localRoles, config.defaultRole);
      ghost var was := Snapshot();
      hide RS.AssignAll, Reconciled, Stopped, Listed, CacheOf;
      probed := [];
      if !manager.enabled {
        manager.Reconcile([]);
        return;
      }
      var dongles := enumerator.EnumerateDongles(scan);
      if |dongles| == 0 {
        NoDongles(f, was.roles, programs, heard);
        return;
      }
      var out;
      OneEach(f, was.roles, programs, Keys(dongles), Answers(heard, |dongles|));
      out, probed := config.AssignRoles(programs, Keys(dongles), Answers(heard, |dongles|));
      manager.Reconcile(WithRoles(dongles, out));
    }
  }

  lemma NoDongles(f: RS.Fixed, roles: Store, programs: RS.Programs, heard: seq<string>)
    ensures RolesOf(f, roles, programs, [], heard) == RS.Assigned(roles, [], []) && WithRoles([], []) == []
  {
  }

  // ----- Every run of the agent is a run of the supervisor -----

  /** A run starts from the saved role store, with nothing else. */
  function StateAfter(f: RS.Fixed, saved: Store, inputs: seq<Input>): State {
    if inputs == [] then State(map[], saved, IDLE)
    else AfterInput(f, StateAfter(f, saved, inputs[..|inputs| - 1]), inputs[|inputs| - 1])
  }

  function EventsAfter(f: RS.Fixed, saved: Store, inputs: seq<Input>): seq<Event> {
    if inputs == [] then []
    else
      var before := inputs[..|inputs| - 1];
      EventsAfter(f, saved, before) + EventsOf(f, StateAfter(f, saved, before), inputs[|inputs| - 1])
  }

  lemma RunExtends(events: seq<Event>, more: seq<Event>)
    requires |more| <= 1
    ensures Run(events + more) == if more == [] then Run(events) else After(Run(events), more[0])
  {
    if more == [] {
      assert events + more == events;
    } else {
      assert (events + more)[..|events|] == events;
    }
  }

  lemma {:induction false} SameSupervisor(f: RS.Fixed, saved: Store, inputs: seq<Input>)
    ensures StateAfter(f, saved, inputs).sup == Run(EventsAfter(f, saved, inputs))
  {
    if inputs != [] {
      var (before, last) := (inputs[..|inputs| - 1], inputs[|inputs| - 1]);
      SameSupervisor(f, saved, before);
      RunExtends(EventsAfter(f, saved, before), EventsOf(f, StateAfter(f, saved, before), last));
    }
  }

  /**
   Over any run of the agent at all its supervisor goes through a run of its own, so no context
   is lost, and relays always reach their decoders exactly if each scan's list is served right.
   */
  lemma AgentRunsSupervisor(f: RS.Fixed, saved: Store, inputs: seq<Input>)
    ensures var sup := StateAfter(f, saved, inputs).sup;
            sup == Run(EventsAfter(f, saved, inputs)) && Conserved(sup) && OneLivePerKey(sup)
    ensures AlwaysAgrees(EventsAfter(f, saved, inputs)) <==> AlwaysRight(EventsAfter(f, saved, inputs))
  {
    SameSupervisor(f, saved, inputs);
    EveryRunConserves(EventsAfter(f, saved, inputs));
    AlwaysAgreesIff(EventsAfter(f, saved, inputs));
  }

  // ----- When relays reach their decoders in a run of the agent -----

  ghost predicate DistinctDongles(dongles: seq<Dongle>) {
    forall k, l :: 0 <= k < l < |dongles| ==> Key(dongles[k]) != Key(dongles[l])
  }

  predicate ProbeAnswers(heard: seq<string>) {
    forall i :: 0 <= i < |heard| ==> RS.IsProbeResult(heard[i])
  }

  /** A dongle nothing was heard of counts as ADS-B. */
  lemma UnheardIsAdsb(heard: seq<string>, n: nat, i: nat)
    requires i < n
    ensures Answers(heard, n)[i] == if i < |heard| then heard[i] else "adsb"
  {
  }

  /** A scan lists distinct keys; a push names each dongle once, with any role without a colon. */
  ghost predicate GoodInput(s: State, input: Input) {
    match input
    case Scanned(enabled, scan, _, heard) => ProbeAnswers(heard) && (enabled ==> DistinctDongles(Listed(scan, s.cache)))
    case Pushed(roles) => RS.DistinctSerials(roles) && RS.AllRoles(roles, IsPlain)
    case Ended => true
  }

  ghost predicate GoodInputs(f: RS.Fixed, saved: Store, inputs: seq<Input>) {
    forall n :: 0 <= n < |inputs| ==> GoodInput(StateAfter(f, saved, inputs[..n]), inputs[n])
  }

  lemma AssignsAreSound(f: RS.Fixed, roles: Store, programs: RS.Programs, dongles: seq<Dongle>, heard: seq<string>)
    requires RS.AllRoles(f.local, IsPlain) && RS.AllRoles(roles, IsPlain) && DistinctDongles(dongles) &&
        ProbeAnswers(heard)
    ensures var r := RolesOf(f, roles, programs, dongles, heard);
            Sound(WithRoles(dongles, r.out)) && RS.AllRoles(r.roles, IsPlain)
  {
    RS.AssignmentsKeep(IsPlain, f, roles, programs, Keys(dongles), Answers(heard, |dongles|));
  }

  lemma InputKeepsPlain(f: RS.Fixed, s: State, input: Input)
    requires RS.AllRoles(f.local, IsPlain) && RS.AllRoles(s.roles, IsPlain) && GoodInput(s, input)
    ensures RS.AllRoles(AfterInput(f, s, input).roles, IsPlain) && SoundRun(EventsOf(f, s, input))
  {
    match input {
      case Pushed(roles) => RS.ApplyRolesIsOverride(s.roles, roles);
      case Ended =>
      case Scanned(enabled, scan, programs, heard) =>
        hide RS.AllRoles, DistinctDongles;
        if enabled {
          AssignsAreSound(f, s.roles, programs, Listed(scan, s.cache), heard);
        }
    }
  }

  lemma {:induction false} RunIsSound(f: RS.Fixed, saved: Store, inputs: seq<Input>)
    requires GoodInputs(f, saved, inputs) && RS.AllRoles(f.local, IsPlain) && RS.AllRoles(saved, IsPlain)
    ensures SoundRun(EventsAfter(f, saved, inputs)) && RS.AllRoles(StateAfter(f, saved, inputs).roles, IsPlain)
  {
    if inputs != [] {
      var (before, last) := (inputs[..|inputs| - 1], inputs[|inputs| - 1]);
      assert GoodInputs(f, saved, before) by {
        forall n | 0 <= n < |before| ensures GoodInput(StateAfter(f, saved, before[..n]), before[n]) {
          assert before[..n] == inputs[..n] && before[n] == inputs[n];
        }
      }
      RunIsSound(f, saved, before);
      assert GoodInput(StateAfter(f, saved, inputs[..|inputs| - 1]), inputs[|inputs| - 1]);
      InputKeepsPlain(f, StateAfter(f, saved, before), last);
    }
  }

  /**
   Over any run of the agent with distinct keys in each scan, relays always reach their decoders exactly if no
   receiver moves.
   */
  lemma AgentRelaysIff(f: RS.Fixed, saved: Store, inputs: seq<Input>)
    requires GoodInputs(f, saved, inputs) && RS.AllRoles(f.local, IsPlain) && RS.AllRoles(saved, IsPlain)
    ensures AlwaysAgrees(EventsAfter(f, saved, inputs)) <==> NeverMoves(EventsAfter(f, saved, inputs))
  {
    RunIsSound(f, saved, inputs);
    AlwaysAgreesIffNoMove(EventsAfter(f, saved, inputs));
  }

  /** Every device of a scan has a port, and no two the same. */
  predicate AllPorts(s: Scan) {
    DistinctPorts(s) && forall i :: 0 <= i < |s.found| ==> PortOf(s, i) != ""
  }

  lemma {:induction false} CacheAlwaysValid(f: RS.Fixed, saved: Store, inputs: seq<Input>)
    ensures ValidCache(StateAfter(f, saved, inputs).cache)
  {
    if inputs != [] {
      var (before, last) := (inputs[..|inputs| - 1], inputs[|inputs| - 1]);
      CacheAlwaysValid(f, saved, before);
      if last.Scanned? {
        CacheStaysValid(last.scan, StateAfter(f, saved, before).cache);
      }
    }
  }

  /** Distinct ports give distinct keys: at any moment of any run, whatever the cache holds by then. */
  lemma PortsGiveKeys(f: RS.Fixed, saved: Store, inputs: seq<Input>, s: Scan)
    requires AllPorts(s)
    ensures DistinctDongles(Listed(s, StateAfter(f, saved, inputs).cache))
  {
    CacheAlwaysValid(f, saved, inputs);
    ListedOnce(s, StateAfter(f, saved, inputs).cache);
  }

  // ----- An immediate second tick changes nothing at all -----

  /** A listing depends on the cache only at the ports of unreadable devices. */
  lemma {:induction false} SameListing(s: Scan, c: Cache, d: Cache, i: nat)
    requires i <= |s.found|
    requires forall k :: i <= k < |s.found| && s.found[k].None? ==> Found(s, c, k) == Found(s, d, k)
    ensures ListFrom(s, c, i) == ListFrom(s, d, i)
    decreases |s.found| - i
  {
    if i < |s.found| {
      SameListing(s, CacheOne(s, c, i), CacheOne(s, d, i), i + 1);
    }
  }

  /** Scanning the same bus again lists the same dongles and leaves the cache as it is. */
  lemma Rescan(s: Scan, cache: Cache)
    requires DistinctPorts(s) && ValidCache(cache)
    ensures Listed(s, CacheOf(s, cache)) == Listed(s, cache) && CacheOf(s, CacheOf(s, cache)) == CacheOf(s, cache)
  {
    var once := CacheOf(s, cache);
    CacheStaysValid(s, cache);
    CacheStaysValid(s, once);
    forall k | 0 <= k < |s.found| && s.found[k].None? ensures Found(s, cache, k) == Found(s, once, k) {
      var port := PortOf(s, k);
      if port != "" {
        CacheFromSpec(s, cache, 0, port);
        assert port in s.ports;
      }
    }
    SameListing(s, cache, once, 0);
    forall port | port != ""
      ensures (port in once <==> port in CacheOf(s, once)) && (port in once ==> once[port] == CacheOf(s, once)[port])
    {
      CacheFromSpec(s, cache, 0, port);
      CacheFromSpec(s, once, 0, port);
    }
    assert "" !in once && "" !in CacheOf(s, once);
  }

  /** A dongle's role is decided without listening and, unless off, stored as it is. */
  predicate Settled(f: RS.Fixed, roles: Store, programs: RS.Programs, key: string, role: string) {
    && RS.Chosen(RS.RoleOf(f.local, roles, key), f.defaultRole, programs) == Some(role)
    && (role != OFF ==> key in RS.Abs(roles) && RS.Abs(roles)[key] == role)
  }

  lemma {:induction false} StoredUnchanged(roles: Store, key: string, role: string)
    requires key in RS.Abs(roles) && RS.Abs(roles)[key] == role
    ensures RS.Updated(roles, key, role) == roles
  {
    if roles[0].serial != key {
      StoredUnchanged(roles[1..], key, role);
    }
  }

  lemma SettledOne(f: RS.Fixed, roles: Store, programs: RS.Programs, key: string, heard: string)
    requires RS.NoEmptyRole(f.local) && RS.IsProbeResult(heard)
    ensures var r := RS.AssignOne(f, roles, programs, key, heard); Settled(f, r.roles, programs, key, r.out[0].role)
  {
    var r := RS.AssignOne(f, roles, programs, key, heard);
    RS.ListIsMap(roles, key, r.out[0].role);
    RS.ListIsMap(r.roles, key, "");
  }

  lemma SettledStays(f: RS.Fixed, roles: Store, programs: RS.Programs, key: string, role: string, other: string,
      heard: string)
    requires Settled(f, roles, programs, key, role)
    ensures Settled(f, RS.AssignOne(f, roles, programs, other, heard).roles, programs, key, role)
  {
    var r := RS.AssignOne(f, roles, programs, other, heard);
    RS.ListIsMap(roles, other, r.out[0].role);
    RS.ListIsMap(roles, key, "");
    RS.ListIsMap(r.roles, key, "");
  }

  lemma {:induction false} SettledThrough(f: RS.Fixed, roles: Store, programs: RS.Programs, keys: seq<string>,
      heard: seq<string>, key: string, role: string)
    requires |heard| == |keys| && Settled(f, roles, programs, key, role)
    ensures Settled(f, RS.AssignAll(f, roles, programs, keys, heard).roles, programs, key, role)
    decreases |keys|
  {
    if keys != [] {
      SettledStays(f, roles, programs, key, role, keys[0], heard[0]);
      SettledThrough(f, RS.AssignOne(f, roles, programs, keys[0], heard[0]).roles, programs, keys[1..], heard[1..],
          key, role);
    }
  }

  lemma {:induction false} AllSettled(f: RS.Fixed, roles: Store, programs: RS.Programs, keys: seq<string>,
      heard: seq<string>)
    requires |heard| == |keys| && RS.NoEmptyRole(f.local) && forall i :: 0 <= i < |heard| ==> RS.IsProbeResult(heard[i])
    ensures var r := RS.AssignAll(f, roles, programs, keys, heard);
            |r.out| == |keys| && forall i :: 0 <= i < |keys| ==>
              r.out[i].key == keys[i] && Settled(f, r.roles, programs, keys[i], r.out[i].role)
    decreases |keys|
  {
    if keys != [] {
      var one := RS.AssignOne(f, roles, programs, keys[0], heard[0]);
      AllSettled(f, one.roles, programs, keys[1..], heard[1..]);
      SettledOne(f, roles, programs, keys[0], heard[0]);
      SettledThrough(f, one.roles, programs, keys[1..], heard[1..], keys[0], one.out[0].role);
      hide Settled, RS.NoEmptyRole;
      var (r, rest) := (RS.AssignAll(f, roles, programs, keys, heard),
          RS.AssignAll(f, one.roles, programs, keys[1..], heard[1..]));
      forall i | 0 <= i < |keys|
        ensures r.out[i].key == keys[i] && Settled(f, r.roles, programs, keys[i], r.out[i].role)
      {
        if i > 0 {
          assert r.out[i] == rest.out[i - 1] && keys[i] == keys[1..][i - 1];
        }
      }
    }
  }

  lemma SettledOnce(f: RS.Fixed, roles: Store, programs: RS.Programs, key: string, heard: string, role: string)
    requires Settled(f, roles, programs, key, role)
    ensures RS.AssignOne(f, roles, programs, key, heard) == RS.Assigned(roles, [RS.Assignment(key, role)], [])
  {
    if role != OFF {
      StoredUnchanged(roles, key, role);
    }
  }

  lemma {:induction false} SettledAssign(f: RS.Fixed, roles: Store, programs: RS.Programs, keys: seq<string>,
      heard: seq<string>, out: seq<RS.Assignment>)
    requires |heard| == |keys| == |out|
    requires forall i :: 0 <= i < |keys| ==> out[i].key == keys[i] && Settled(f, roles, programs, keys[i], out[i].role)
    ensures RS.AssignAll(f, roles, programs, keys, heard) == RS.Assigned(roles, out, [])
    decreases |keys|
  {
    hide Settled, RS.AssignOne, RS.AssignAll;
    RS.AssignUnfolds(f, roles, programs, keys, heard);
    if keys != [] {
      SettledOnce(f, roles, programs, keys[0], heard[0], out[0].role);
      SettledAssign(f, roles, programs, keys[1..], heard[1..], out[1..]);
      assert out == [out[0]] + out[1..];
    }
  }

  /** Assigning roles again decides the same without listening, whatever listening would answer now. */
  lemma AssignAgain(f: RS.Fixed, roles: Store, programs: RS.Programs, keys: seq<string>, heard: seq<string>,
      later: seq<string>)
    requires |heard| == |keys| == |later| && RS.NoEmptyRole(f.local) && ProbeAnswers(heard)
    ensures var r := RS.AssignAll(f, roles, programs, keys, heard);
            RS.AssignAll(f, r.roles, programs, keys, later) == RS.Assigned(r.roles, r.out, [])
  {
    var r := RS.AssignAll(f, roles, programs, keys, heard);
    AllSettled(f, roles, programs, keys, heard);
    SettledAssign(f, r.roles, programs, keys, later, r.out);
  }

  lemma SupervisorAgain(s: Sup, a: seq<RoleAssignment>)
    requires Conserved(s)
    requires forall i, j :: 0 <= i < j < |a| ==> Key(a[i].dongle) != Key(a[j].dongle)
    requires forall i, j :: 0 <= i < j < |a| ==> a[i].dongle.index != a[j].dongle.index
    ensures After(After(s, Tick(true, a)), Tick(true, a)) == After(s, Tick(true, a))
  {
    StableIff(s, Plan(a));
  }

  /**
   From any state, a second tick on the same bus changes nothing anywhere: not the
   cache, not the role store, no decoder, no relay, no context; and it listens to no dongle.
   */
  lemma SecondTickIsIdle(f: RS.Fixed, s: State, first: Input, later: seq<string>)
    requires ValidCache(s.cache) && Conserved(s.sup) && RS.NoEmptyRole(f.local)
    requires first.Scanned? && ProbeAnswers(first.heard)
    requires DistinctPorts(first.scan) && DistinctDongles(Listed(first.scan, s.cache))
    ensures var t := AfterInput(f, s, first);
            && AfterInput(f, t, first.(heard := later)) == t
            && ProbedBy(f, t, first.(heard := later)) == []
  {
    var dongles := Listed(first.scan, s.cache);
    var heard, answers := Answers(first.heard, |dongles|), Answers(later, |dongles|);
    if first.enabled {
      Rescan(first.scan, s.cache);
      ListFromInOrder(first.scan, s.cache, 0);
      AssignAgain(f, s.roles, first.programs, Keys(dongles), heard, answers);
      SupervisorAgain(s.sup, WithRoles(dongles, RolesOf(f, s.roles, first.programs, dongles, first.heard).out));
    }
  }
}
