/**
 The decoder supervisor (agent/decoders.go): which decoders and relays run after
 each tick, and which contexts were created and cancelled along the way.
 */
module Supervisor {
  import opened Enumeration
  import opened PortPlan
  import opened Roles

  /** A cancellable context, with what was started under it. */
  datatype Context =
    | Decoder(key: string, role: string, identity: string, ports: Ports)
    | Forwarder(key: string, port: nat)

  /** A running decoder: the number of its context and what it was started with. */
  datatype Child = Child(ctx: nat, role: string, identity: string, ports: Ports)

  /**
   The supervisor: decoders by dongle key, relays by role and key, the published
   inventory, every context ever created in order, and those cancelled.  The order
   in which the inventory is sorted for publication is no part of the state.
   */
  datatype Sup = Sup(
    active: map<string, Child>,
    forwarders: map<string, nat>,
    inventory: multiset<Entry>,
    contexts: seq<Context>,
    cancelled: set<nat>)

  const IDLE := Sup(map[], map[], multiset{}, [], {})

  // ----- One tick -----

  /** The running decoder of a key is the one an entry asks for. */
  predicate Matches(s: Sup, e: Entry) {
    var key := EntryKey(e);
    && key in s.active
    && s.active[key].role == e.role && s.active[key].identity == Identity(e.dongle) && s.active[key].ports == e.ports
  }

  function StopDecoder(s: Sup, key: string): Sup {
    if key in s.active then s.(active := s.active - {key}, cancelled := s.cancelled + {s.active[key].ctx}) else s
  }

  function StartDecoder(s: Sup, e: Entry): Sup {
    var (key, id) := (EntryKey(e), Identity(e.dongle));
    s.(active := s.active[key := Child(|s.contexts|, e.role, id, e.ports)],
       contexts := s.contexts + [Decoder(key, e.role, id, e.ports)])
  }

  /** A receiver that is off is skipped; one that runs as asked is kept; any other is started anew. */
  function Adopt(s: Sup, e: Entry): Sup {
    if e.role == OFF || Matches(s, e) then s else StartDecoder(StopDecoder(s, EntryKey(e)), e)
  }

  function Adopted(s: Sup, p: seq<Entry>, n: nat): Sup
    requires n <= |p|
  {
    if n == 0 then s else Adopt(Adopted(s, p, n - 1), p[n - 1])
  }

  function Seen(p: seq<Entry>): set<string> {
    set i | 0 <= i < |p| :: EntryKey(p[i])
  }

  function DropUnseen(s: Sup, seen: set<string>): Sup {
    s.(active := map k | k in s.active && k in seen :: s.active[k],
       cancelled := s.cancelled + set k | k in s.active && k !in seen :: s.active[k].ctx)
  }

  /** Receivers that are off have no relay, and those for UAT feed by themselves. */
  predicate Relayed(e: Entry) {
    e.role != OFF && e.role != UAT
  }

  function RelayKey(e: Entry): string {
    e.role + ":" + EntryKey(e)
  }

  /** The local port a relay must dial to reach the decoder. */
  function RelayPort(e: Entry): nat {
    if e.role == ADSB then e.ports.beast else e.ports.vdl2
  }

  /** An existing relay is kept as it is. */
  function Forward(s: Sup, e: Entry): Sup {
    if !Relayed(e) || RelayKey(e) in s.forwarders then s
    else
      s.(forwarders := s.forwarders[RelayKey(e) := |s.contexts|],
         contexts := s.contexts + [Forwarder(RelayKey(e), RelayPort(e))])
  }

  function Forwarded(s: Sup, p: seq<Entry>, n: nat): Sup
    requires n <= |p|
  {
    if n == 0 then s else Forward(Forwarded(s, p, n - 1), p[n - 1])
  }

  function Wanted(p: seq<Entry>): set<string> {
    set i | 0 <= i < |p| && Relayed(p[i]) :: RelayKey(p[i])
  }

  function DropUnwanted(s: Sup, wanted: set<string>): Sup {
    s.(forwarders := map k | k in s.forwarders && k in wanted :: s.forwarders[k],
       cancelled := s.cancelled + set k | k in s.forwarders && k !in wanted :: s.forwarders[k])
  }

  function Reconciled(s: Sup, p: seq<Entry>): Sup {
    var adopted := DropUnseen(Adopted(s, p, |p|), Seen(p));
    DropUnwanted(Forwarded(adopted, p, |p|), Wanted(p)).(inventory := multiset(p))
  }

  function Stopped(s: Sup): Sup {
    s.(active := map[], forwarders := map[],
       cancelled := s.cancelled + (set k | k in s.active :: s.active[k].ctx) +
           (set k | k in s.forwarders :: s.forwarders[k]))
  }

  datatype Event = Tick(enabled: bool, assigns: seq<RoleAssignment>) | ParentDone

  /** A disabled tick stops everything; one that finds no dongles changes nothing. */
  function After(s: Sup, e: Event): Sup {
    if e.ParentDone? || !e.enabled then Stopped(s)
    else if e.assigns == [] then s
    else Reconciled(s, Plan(e.assigns))
  }

  function Run(events: seq<Event>): Sup {
    if events == [] then IDLE else After(Run(events[..|events| - 1]), events[|events| - 1])
  }

  // ----- The supervisor as the agent runs it -----

  class DecoderManager {
    var enabled: bool
    var active: map<string, Child>
    var forwarders: map<string, nat>
    var inventory: multiset<Entry>
    var contexts: seq<Context>
    var cancelled: set<nat>

    function State(): Sup
      reads this
    {
      Sup(active, forwarders, inventory, contexts, cancelled)
    }

    constructor ()
      ensures State() == IDLE && !enabled
    {
      enabled, active, forwarders, inventory, contexts, cancelled := false, map[], map[], multiset{}, [], {};
    }

    method SetEnabled(v: bool)
      modifies `enabled
      ensures enabled == v
    {
      enabled := v;
    }

    /** Cancels and forgets the decoders whose key is not in `keep`. */
    method StopDecoders(keep: set<string>)
      modifies `active, `cancelled
      ensures State() == DropUnseen(old(State()), keep)
    {
      ghost var was := State();
      var left := active.Keys;
      while left != {}
        invariant left <= was.active.Keys
        invariant active == map k | k in was.active && (k in left || k in keep) :: was.active[k]
        invariant cancelled == was.cancelled + set k | k in was.active && k !in left && k !in keep :: was.active[k].ctx
      {
        var k :| k in left;
        if k !in keep {
          cancelled := cancelled + {active[k].ctx};
          active := active - {k};
        }
        left := left - {k};
      }
    }

    /** Cancels and forgets the relays whose key is not in `keep`. */
    method StopForwarders(keep: set<string>)
      modifies `forwarders, `cancelled
      ensures State() == DropUnwanted(old(State()), keep)
    {
      ghost var was := State();
      var left := forwarders.Keys;
      while left != {}
        invariant left <= was.forwarders.Keys
        invariant forwarders == map k | k in was.forwarders && (k in left || k in keep) :: was.forwarders[k]
        invariant cancelled == was.cancelled +
                               set k | k in was.forwarders && k !in left && k !in keep :: was.forwarders[k]
      {
        var k :| k in left;
        if k !in keep {
          cancelled := cancelled + {forwarders[k]};
          forwarders := forwarders - {k};
        }
        left := left - {k};
      }
    }

    method StopAll()
      modifies `active, `forwarders, `cancelled
      ensures State() == Stopped(old(State()))
    {
      StopDecoders({});
      StopForwarders({});
    }

    /** Skips a receiver that is off, keeps a decoder that runs as asked, starts or recycles any other. */
    method KeepOrStart(e: Entry)
      modifies `active, `contexts, `cancelled
      ensures State() == Adopt(old(State()), e)
    {
      var key := Key(e.dongle);
      if e.role == OFF {
        return;
      }
      if key in active {
        var running := active[key];
        if running.role == e.role && running.identity == Identity(e.dongle) && running.ports == e.ports {
          return;
        }
        cancelled := cancelled + {running.ctx};
        active := active - {key};
      }
      active := active[key := Child(|contexts|, e.role, Identity(e.dongle), e.ports)];
      contexts := contexts + [Decoder(key, e.role, Identity(e.dongle), e.ports)];
    }

    /** Gives every receiver its ports, and starts or recycles the decoders that do not run as asked. */
    method StartDecoders(assigns: seq<RoleAssignment>) returns (plan: seq<Entry>, seen: set<string>)
      modifies `active, `contexts, `cancelled
      ensures plan == Plan(assigns) && seen == Seen(plan)
      ensures State() == Adopted(old(State()), plan, |plan|)
    {
      ghost var was := State();
      hide Adopt, Adopted, Seen, Plan;
      plan, seen := [], {};
      NothingPlanned(was, assigns);
      var adsbSlot, vdl2Slot := 0, 0;
      var i := 0;
      while i < |assigns|
        invariant 0 <= i <= |assigns|
        invariant adsbSlot == Count(assigns, i, ADSB) && vdl2Slot == Count(assigns, i, VDL2)
        invariant |Plan(assigns)| == |assigns| && plan == Plan(assigns)[..i] && seen == Seen(Plan(assigns)[..i])
        invariant State() == Adopted(was, Plan(assigns), i)
      {
        var a := assigns[i];
        var key := Key(a.dongle);
        seen := seen + {key};
        var ports := Ports(0, 0, 0);
        if a.role == ADSB {
          ports := Ports(30005 + adsbSlot * 100, 30003 + adsbSlot * 100, 0);
          adsbSlot := adsbSlot + 1;
        } else if a.role == VDL2 {
          ports := Ports(0, 0, 5553 + vdl2Slot);
          vdl2Slot := vdl2Slot + 1;
        }
        var entry := Entry(a.dongle, a.role, ports);
        plan := plan + [entry];
        AdoptedUnfolds(was, assigns, i, entry);
        KeepOrStart(entry);
        i := i + 1;
      }
      assert Plan(assigns)[..i] == Plan(assigns);
    }

    /** Starts the relays that are not there yet. */
    method StartForwarders(plan: seq<Entry>) returns (wanted: set<string>)
      modifies `forwarders, `contexts
      ensures wanted == Wanted(plan) && State() == Forwarded(old(State()), plan, |plan|)
    {
      wanted := {};
      var i := 0;
      while i < |plan|
        invariant 0 <= i <= |plan|
        invariant wanted == Wanted(plan[..i])
        invariant State() == Forwarded(old(State()), plan, i)
      {
        var r := plan[i];
        i := i + 1;
        WantedGrows(plan, i);
        if r.role == OFF {
          continue;
        }
        if r.role == UAT {
          continue;
        }
        var key := r.role + ":" + Key(r.dongle);
        wanted := wanted + {key};
        if key in forwarders {
          continue;
        }
        forwarders := forwarders[key := |contexts|];
        if r.role == ADSB {
          contexts := contexts + [Forwarder(key, r.ports.beast)];
        } else {
          contexts := contexts + [Forwarder(key, r.ports.vdl2)];
        }
      }
      assert plan[..i] == plan;
    }

    /** One tick; `assigns` are the dongles found now with their roles. */
    method Reconcile(assigns: seq<RoleAssignment>)
      modifies `active, `forwarders, `inventory, `contexts, `cancelled
      ensures State() == After(old(State()), Tick(enabled, assigns))
    {
      hide Plan, Adopted, Forwarded, Seen, Wanted, DropUnseen, DropUnwanted, Stopped;
      if !enabled {
        if |active| > 0 || |forwarders| > 0 {
          StopAll();
        } else {
          NothingToStop(State());
        }
        return;
      }
      if |assigns| == 0 {
        return;
      }
      var plan, seen := StartDecoders(assigns);
      StopDecoders(seen);
      var wanted := StartForwarders(plan);
      StopForwarders(wanted);
      inventory := multiset(plan);
    }

    /** Ticks until the parent is done, then stops everything. */
    method Supervise(ticks: seq<Event>)
      requires State() == IDLE && forall e :: e in ticks ==> e.Tick?
      modifies this
      ensures State() == Run(ticks + [ParentDone])
    {
      hide Reconciled, Stopped;
      var i := 0;
      while i < |ticks|
        invariant 0 <= i <= |ticks| && State() == Run(ticks[..i])
      {
        assert ticks[..i + 1][..i] == ticks[..i] && ticks[i] in ticks;
        SetEnabled(ticks[i].enabled);
        Reconcile(ticks[i].assigns);
        i := i + 1;
      }
      assert ticks[..i] == ticks && (ticks + [ParentDone])[..|ticks|] == ticks;
      StopAll();
    }
  }

  lemma NothingToStop(s: Sup)
    requires |s.active| == 0 && |s.forwarders| == 0
    ensures Stopped(s) == s
  {
  }

  lemma NothingPlanned(s: Sup, a: seq<RoleAssignment>)
    ensures |Plan(a)| == |a| && Adopted(s, Plan(a), 0) == s && Seen(Plan(a)[..0]) == {}
  {
  }

  lemma AdoptedUnfolds(s: Sup, a: seq<RoleAssignment>, i: nat, e: Entry)
    requires i < |a| && e == EntryAt(a, i)
    ensures |Plan(a)| == |a| && Plan(a)[..i] + [e] == Plan(a)[..i + 1]
    ensures Adopted(s, Plan(a), i + 1) == Adopt(Adopted(s, Plan(a), i), e)
    ensures Seen(Plan(a)[..i + 1]) == Seen(Plan(a)[..i]) + {EntryKey(e)}
  {
    SeenGrows(Plan(a), i + 1);
  }

  lemma SeenGrows(p: seq<Entry>, i: nat)
    requires 0 < i <= |p|
    ensures Seen(p[..i]) == Seen(p[..i - 1]) + {EntryKey(p[i - 1])}
  {
  }

  lemma WantedGrows(p: seq<Entry>, i: nat)
    requires 0 < i <= |p|
    ensures Wanted(p[..i]) == Wanted(p[..i - 1]) + if Relayed(p[i - 1]) then {RelayKey(p[i - 1])} else {}
  {
  }
}
