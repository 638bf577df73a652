/** Whether each relay dials the port its decoder serves, over runs of the supervisor (agent/decoders.go). */
module Relays {
  import opened Enumeration
  import opened Roles
  import opened PortPlan
  import opened Supervisor
  import opened Lifecycle
  import opened Ticks

  /** A context dials the port on which a decoder serves: Beast for ADS-B, the datagram port otherwise. */
  predicate Dials(c: Context, key: string, decoder: Child) {
    && c.Forwarder? && c.key == key
    && c.port == if decoder.role == "adsb" then decoder.ports.beast else decoder.ports.vdl2
  }

  /** The context of a receiver's relay dials the port on which the receiver's own decoder serves. */
  predicate Reaches(s: Sup, e: Entry) {
    var key := e.role + ":" + EntryKey(e);
    && Matches(s, e)
    && key in s.forwarders && s.forwarders[key] < |s.contexts|
    && Dials(s.contexts[s.forwarders[key]], key, s.active[EntryKey(e)])
  }

  /** The same in terms of the entry: what the proofs about ticks work with. */
  predicate DialsEntry(s: Sup, e: Entry) {
    var key := RelayKey(e);
    && key in s.forwarders && s.forwarders[key] < |s.contexts|
    && s.contexts[s.forwarders[key]] == Forwarder(key, RelayPort(e))
    && Matches(s, e)
  }

  lemma ReachesIffDialsEntry(s: Sup, e: Entry)
    ensures Reaches(s, e) <==> DialsEntry(s, e)
  {
  }

  ghost predicate Published(s: Sup, key: string) {
    exists e :: e in s.inventory && Relayed(e) && RelayKey(e) == key
  }

  /** Every live relay belongs to a published receiver and reaches its decoder. */
  ghost predicate Agrees(s: Sup) {
    && (forall key :: key in s.forwarders ==> Published(s, key))
    && (forall e :: e in s.inventory && Relayed(e) && RelayKey(e) in s.forwarders ==> Reaches(s, e))
  }

  /** Distinct keys, and roles whose names cannot be confused with a role and a key. */
  ghost predicate Sound(a: seq<RoleAssignment>) {
    && (forall i, j :: 0 <= i < j < |a| ==> Key(a[i].dongle) != Key(a[j].dongle))
    && (forall i :: 0 <= i < |a| ==> IsPlain(a[i].role))
  }

  lemma ColonInLonger(a: string, x: string, b: string, y: string)
    requires a + ":" + x == b + ":" + y && |a| < |b|
    ensures ':' in b
  {
    assert (a + ":" + x)[|a|] == ':' && (b + ":" + y)[|a|] == b[|a|];
  }

  lemma RelayKeyParts(e: Entry, f: Entry)
    requires IsPlain(e.role) && IsPlain(f.role)
    ensures RelayKey(e) == RelayKey(f) <==> e.role == f.role && EntryKey(e) == EntryKey(f)
  {
    if RelayKey(e) == RelayKey(f) {
      if |e.role| < |f.role| {
        ColonInLonger(e.role, EntryKey(e), f.role, EntryKey(f));
      } else if |f.role| < |e.role| {
        ColonInLonger(f.role, EntryKey(f), e.role, EntryKey(e));
      } else {
        assert RelayKey(e)[..|e.role|] == e.role && RelayKey(e)[|e.role| + 1..] == EntryKey(e);
        assert RelayKey(f)[..|f.role|] == f.role && RelayKey(f)[|f.role| + 1..] == EntryKey(f);
      }
    }
  }

  lemma OnlyWanter(a: seq<RoleAssignment>, i: nat, j: nat)
    requires Sound(a) && i < |a| && j < |a| && Relayed(Plan(a)[i]) && Relayed(Plan(a)[j])
    requires RelayKey(Plan(a)[i]) == RelayKey(Plan(a)[j])
    ensures i == j
  {
    RelayKeyParts(Plan(a)[i], Plan(a)[j]);
  }

  /** A relay that was already there dials the port the receiver has now. */
  predicate StillRight(s: Sup, e: Entry) {
    var key := RelayKey(e);
    key in s.forwarders ==>
      s.forwarders[key] < |s.contexts| && s.contexts[s.forwarders[key]] == Forwarder(key, RelayPort(e))
  }

  predicate SameDecoder(e: Entry, f: Entry) {
    e.role == f.role && Identity(e.dongle) == Identity(f.dongle) && e.ports == f.ports
  }

  /**
   A list the supervisor can serve: receivers that share a relay have the same port on it, and
   each relayed one has the decoder that the last to ask for its key has.
   */
  ghost predicate Consistent(p: seq<Entry>) {
    && SamePorts(p, p)
    && forall i, j :: 0 <= i < |p| && Relayed(p[i]) && LastToAsk(p, |p|, EntryKey(p[i]), j) ==> SameDecoder(p[i], p[j])
  }

  /** Receivers that have the same relay in both lists have the same port on it. */
  ghost predicate SamePorts(p: seq<Entry>, q: seq<Entry>) {
    forall i, j :: 0 <= i < |p| && 0 <= j < |q| && OneRelay(p[i], q[j]) ==> RelayPort(p[i]) == RelayPort(q[j])
  }

  predicate OneRelay(e: Entry, f: Entry) {
    Relayed(e) && Relayed(f) && RelayKey(e) == RelayKey(f)
  }

  lemma {:induction false} FirstWanter(p: seq<Entry>, i: nat, key: string) returns (first: nat)
    requires Wants(p, i, key)
    ensures first <= i && FirstToWant(p, first, key)
    decreases i
  {
    if j :| 0 <= j < i && Wants(p, j, key) {
      first := FirstWanter(p, j, key);
    } else {
      first := i;
    }
  }

  /** After a tick a relay dials what it did before, or if it is new, the port of the first receiver that wants it. */
  lemma DialsAfterTick(s: Sup, p: seq<Entry>, i: nat) returns (first: nat)
    requires Conserved(s) && i < |p| && Relayed(p[i])
    ensures first < |p| && OneRelay(p[first], p[i])
    ensures var (t, key) := (Reconciled(s, p), RelayKey(p[i]));
            && key in t.forwarders && t.forwarders[key] < |t.contexts|
            && (t.contexts[t.forwarders[key]] == Forwarder(key, RelayPort(p[i])) <==>
                if key in s.forwarders then StillRight(s, p[i]) else RelayPort(p[first]) == RelayPort(p[i]))
  {
    hide Reconciled;
    var key := RelayKey(p[i]);
    first := FirstWanter(p, i, key);
    RelayAfterTick(s, p, first);
    var t := Reconciled(s, p);
    if key in s.forwarders {
      assert OwnForwarder(s, key);
      assert s.contexts[s.forwarders[key]] == t.contexts[s.forwarders[key]];
    }
  }

  /** After a tick a relayed receiver has its decoder exactly if it has the one of the last to ask for its key. */
  lemma ServedAfterTick(s: Sup, p: seq<Entry>, i: nat) returns (last: int)
    requires Conserved(s) && i < |p| && Relayed(p[i])
    ensures LastToAsk(p, |p|, EntryKey(p[i]), last)
    ensures Matches(Reconciled(s, p), p[i]) <==> SameDecoder(p[i], p[last])
  {
    hide Reconciled;
    last := LastAsker(p, |p|, EntryKey(p[i]), i);
    DecoderAfterTick(s, p, EntryKey(p[i]));
  }

  lemma OneLast(p: seq<Entry>, key: string, i: int, j: int)
    requires LastToAsk(p, |p|, key, i) && LastToAsk(p, |p|, key, j)
    ensures i == j
  {
  }

  /** The agreement of a state whose relays are those of its published plan. */
  lemma AgreesOnPlan(t: Sup, p: seq<Entry>)
    requires t.inventory == multiset(p) && t.forwarders.Keys == Wanted(p)
    ensures Agrees(t) <==> forall i :: 0 <= i < |p| && Relayed(p[i]) ==> Reaches(t, p[i])
  {
    hide Reaches, Relayed, RelayKey;
    forall key | key in t.forwarders ensures Published(t, key) {
      var i :| 0 <= i < |p| && Relayed(p[i]) && RelayKey(p[i]) == key;
      assert p[i] in t.inventory;
    }
    if Agrees(t) {
      forall i | 0 <= i < |p| && Relayed(p[i]) ensures Reaches(t, p[i]) {
        assert p[i] in t.inventory && RelayKey(p[i]) in Wanted(p);
      }
    }
  }

  /**
   From any state and for any list, all relays reach their decoders after a tick exactly
   if the list is consistent and the relays that were there dial the right port.
   */
  lemma TickAgreesIff(s: Sup, p: seq<Entry>)
    requires Conserved(s)
    ensures Agrees(Reconciled(s, p)) <==>
            Consistent(p) && forall i :: 0 <= i < |p| && Relayed(p[i]) ==> StillRight(s, p[i])
  {
    assert Reconciled(s, p).inventory == multiset(p);
    TickAgreesOnPlan(s, p, Reconciled(s, p));
  }

  lemma TickAgreesOnPlan(s: Sup, p: seq<Entry>, t: Sup)
    requires Conserved(s) && t == Reconciled(s, p) && t.inventory == multiset(p)
    ensures Agrees(t) <==> Consistent(p) && forall i :: 0 <= i < |p| && Relayed(p[i]) ==> StillRight(s, p[i])
  {
    hide Reconciled, Conserved, Agrees, Relayed, RelayKey, RelayPort, Matches, LastToAsk, SameDecoder, Reaches;
    RelaysAfterTick(s, p);
    AgreesOnPlan(t, p);
    forall i | 0 <= i < |p| ensures Reaches(t, p[i]) <==> DialsEntry(t, p[i]) {
      ReachesIffDialsEntry(t, p[i]);
    }
    if Agrees(t) {
      ConsistentIfAgrees(s, p, t);
    }
    if Consistent(p) && forall i :: 0 <= i < |p| && Relayed(p[i]) ==> StillRight(s, p[i]) {
      forall i | 0 <= i < |p| && Relayed(p[i]) ensures DialsEntry(t, p[i]) {
        var first := DialsAfterTick(s, p, i);
        var last := ServedAfterTick(s, p, i);
      }
    }
  }

  lemma ConsistentIfAgrees(s: Sup, p: seq<Entry>, t: Sup)
    requires Conserved(s) && t == Reconciled(s, p)
    requires forall i :: 0 <= i < |p| && Relayed(p[i]) ==> DialsEntry(t, p[i])
    ensures Consistent(p) && forall i :: 0 <= i < |p| && Relayed(p[i]) ==> StillRight(s, p[i])
  {
    hide Reconciled, Conserved, Relayed, RelayKey, RelayPort, Matches, SameDecoder;
    forall i, j | 0 <= i < |p| && 0 <= j < |p| && OneRelay(p[i], p[j]) ensures RelayPort(p[i]) == RelayPort(p[j]) {
      assert DialsEntry(t, p[i]) && DialsEntry(t, p[j]);
    }
    forall i, j | 0 <= i < |p| && Relayed(p[i]) && LastToAsk(p, |p|, EntryKey(p[i]), j)
      ensures SameDecoder(p[i], p[j])
    {
      var last := ServedAfterTick(s, p, i);
      OneLast(p, EntryKey(p[i]), j, last);
      assert DialsEntry(t, p[i]);
    }
    forall i | 0 <= i < |p| && Relayed(p[i]) ensures StillRight(s, p[i]) {
      var first := DialsAfterTick(s, p, i);
      assert DialsEntry(t, p[i]);
    }
  }

  lemma PlanLength(a: seq<RoleAssignment>)
    ensures |Plan(a)| == |a|
  {
  }

  // ----- Runs -----

  /** A receiver assigned in both lists with the same role has the same slot in both. */
  ghost predicate NoMove(a: seq<RoleAssignment>, b: seq<RoleAssignment>) {
    forall i, j :: 0 <= i < |a| && 0 <= j < |b| && SameReceiver(a[i], b[j]) ==> Slot(a, i) == Slot(b, j)
  }

  predicate SameReceiver(r: RoleAssignment, q: RoleAssignment) {
    r.role == q.role && (r.role == ADSB || r.role == VDL2) && Key(r.dongle) == Key(q.dongle)
  }

  /** The assignments of the last tick that found dongles, unless everything was stopped since. */
  function LastAssigns(events: seq<Event>): seq<RoleAssignment> {
    if events == [] then []
    else
      var last := events[|events| - 1];
      if last.ParentDone? || !last.enabled then []
      else if last.assigns == [] then LastAssigns(events[..|events| - 1])
      else last.assigns
  }

  ghost predicate SoundRun(events: seq<Event>) {
    forall i :: 0 <= i < |events| && events[i].Tick? ==> Sound(events[i].assigns)
  }

  lemma {:induction false} RelaysOfRun(events: seq<Event>)
    ensures var s := Run(events);
            && s.forwarders.Keys == Wanted(Plan(LastAssigns(events)))
            && (LastAssigns(events) != [] ==> s.inventory == multiset(Plan(LastAssigns(events))))
  {
    if events != [] {
      var (before, last) := (events[..|events| - 1], events[|events| - 1]);
      RelaysOfRun(before);
      if last.Tick? {
        RelaysAfterTick(Run(before), Plan(last.assigns));
      }
    }
  }

  /** Relays still dial right exactly if no receiver's port changed, provided they were right before. */
  lemma StillRightIff(s: Sup, p: seq<Entry>, q: seq<Entry>)
    requires s.forwarders.Keys == Wanted(p) && forall i :: 0 <= i < |p| && Relayed(p[i]) ==> DialsEntry(s, p[i])
    ensures (forall j :: 0 <= j < |q| && Relayed(q[j]) ==> StillRight(s, q[j])) <==> SamePorts(p, q)
  {
    hide RelayKey, RelayPort, Relayed, Matches;
    if SamePorts(p, q) {
      forall j | 0 <= j < |q| && Relayed(q[j]) ensures StillRight(s, q[j]) {
        if RelayKey(q[j]) in s.forwarders {
          var i :| 0 <= i < |p| && Relayed(p[i]) && RelayKey(p[i]) == RelayKey(q[j]);
          assert DialsEntry(s, p[i]) && OneRelay(p[i], q[j]);
        }
      }
    }
    if forall j :: 0 <= j < |q| && Relayed(q[j]) ==> StillRight(s, q[j]) {
      forall i, j | 0 <= i < |p| && 0 <= j < |q| && OneRelay(p[i], q[j]) ensures RelayPort(p[i]) == RelayPort(q[j]) {
        assert DialsEntry(s, p[i]) && StillRight(s, q[j]);
      }
    }
  }

  /** An event that finds dongles finds a consistent list, and no receiver with another port on its relay. */
  ghost predicate StepRight(before: seq<Event>, e: Event) {
    e.Tick? && e.enabled && e.assigns != [] ==>
      Consistent(Plan(e.assigns)) && SamePorts(Plan(LastAssigns(before)), Plan(e.assigns))
  }

  lemma StepAgreesIff(before: seq<Event>, e: Event)
    requires Agrees(Run(before))
    ensures Agrees(Run(before + [e])) <==> StepRight(before, e)
  {
    var events := before + [e];
    assert events[..|events| - 1] == before && events[|events| - 1] == e;
    RelaysOfRun(before);
    EveryRunConserves(before);
    var (s, p) := (Run(before), Plan(LastAssigns(before)));
    if e.Tick? && e.enabled && e.assigns != [] {
      forall i | 0 <= i < |p| && Relayed(p[i]) ensures DialsEntry(s, p[i]) {
        assert p[i] in s.inventory && RelayKey(p[i]) in Wanted(p);
        ReachesIffDialsEntry(s, p[i]);
      }
      TickAgreesIff(s, Plan(e.assigns));
      StillRightIff(s, p, Plan(e.assigns));
      assert Run(events) == Reconciled(s, Plan(e.assigns));
    }
  }

  /** Relays reach their decoders at every moment of a run. */
  ghost predicate AlwaysAgrees(events: seq<Event>) {
    forall n :: 0 <= n <= |events| ==> Agrees(Run(events[..n]))
  }

  ghost predicate AlwaysRight(events: seq<Event>) {
    forall n :: 0 <= n < |events| ==> StepRight(events[..n], events[n])
  }

  /**
   Over any run, all relays always reach their decoders if and only if each tick finds a
   consistent list in which no receiver has another port on its relay than before.
   */
  lemma {:induction false} AlwaysAgreesIff(events: seq<Event>)
    ensures AlwaysAgrees(events) <==> AlwaysRight(events)
  {
    if events == [] {
      assert events[..0] == [];
    } else {
      var (before, last) := (events[..|events| - 1], events[|events| - 1]);
      assert events == before + [last] && before[..|before|] == before;
      AlwaysAgreesIff(before);
      AlwaysUnfolds(before, last);
      RightUnfolds(before, last);
      if AlwaysAgrees(before) {
        assert Agrees(Run(before[..|before|]));
        StepAgreesIff(before, last);
      }
    }
  }

  lemma AlwaysUnfolds(before: seq<Event>, e: Event)
    ensures AlwaysAgrees(before + [e]) <==> AlwaysAgrees(before) && Agrees(Run(before + [e]))
  {
    hide Run, Agrees;
    var events := before + [e];
    assert forall n :: 0 <= n <= |before| ==> events[..n] == before[..n];
    assert events[..|events|] == events;
  }

  lemma RightUnfolds(before: seq<Event>, e: Event)
    ensures AlwaysRight(before + [e]) <==> AlwaysRight(before) && StepRight(before, e)
  {
    hide StepRight;
    var events := before + [e];
    assert forall n :: 0 <= n < |before| ==> events[..n] == before[..n] && events[n] == before[n];
    assert events[..|before|] == before && events[|before|] == e;
  }

  // ----- Runs with distinct keys -----

  /**
   The same receiver has the same relay; two receivers with one relay share its port exactly if they have the
   same slot.
   */
  lemma SameRelay(a: seq<RoleAssignment>, i: nat, b: seq<RoleAssignment>, j: nat)
    requires Sound(a) && Sound(b) && i < |a| && j < |b|
    ensures |Plan(a)| == |a| && |Plan(b)| == |b|
    ensures var (e, f) := (Plan(a)[i], Plan(b)[j]);
            && (SameReceiver(a[i], b[j]) ==> Relayed(e) && Relayed(f) && RelayKey(e) == RelayKey(f))
            && (Relayed(e) && Relayed(f) && RelayKey(e) == RelayKey(f) ==>
                  (RelayPort(e) == RelayPort(f) <==> (SameReceiver(a[i], b[j]) ==> Slot(a, i) == Slot(b, j))))
  {
    hide Slot;
    RelayKeyParts(Plan(a)[i], Plan(b)[j]);
  }

  /** With distinct keys a list is consistent, and ports change exactly with slots. */
  lemma SoundIsConsistent(a: seq<RoleAssignment>)
    requires Sound(a)
    ensures Consistent(Plan(a))
  {
    PlanLength(a);
    var p := Plan(a);
    forall i, j | 0 <= i < |p| && 0 <= j < |p| && OneRelay(p[i], p[j]) ensures i == j {
      OnlyWanter(a, i, j);
    }
    forall i, j | 0 <= i < |p| && Relayed(p[i]) && LastToAsk(p, |p|, EntryKey(p[i]), j) ensures i == j {
    }
  }

  lemma SamePortsIffNoMove(a: seq<RoleAssignment>, b: seq<RoleAssignment>)
    requires Sound(a) && Sound(b)
    ensures SamePorts(Plan(a), Plan(b)) <==> NoMove(a, b)
  {
    hide Slot, Plan, Sound, RelayKey, RelayPort, SameReceiver, Relayed;
    PlanLength(a);
    PlanLength(b);
    if NoMove(a, b) {
      forall i, j | 0 <= i < |a| && 0 <= j < |b| && OneRelay(Plan(a)[i], Plan(b)[j])
        ensures RelayPort(Plan(a)[i]) == RelayPort(Plan(b)[j])
      {
        SameRelay(a, i, b, j);
      }
    }
    if SamePorts(Plan(a), Plan(b)) {
      forall i, j | 0 <= i < |a| && 0 <= j < |b| && SameReceiver(a[i], b[j]) ensures Slot(a, i) == Slot(b, j) {
        SameRelay(a, i, b, j);
        assert OneRelay(Plan(a)[i], Plan(b)[j]);
      }
    }
  }

  /** No event of a run moves a receiver to another slot. */
  ghost predicate NeverMoves(events: seq<Event>) {
    forall n :: 0 <= n < |events| ==> NoMove(LastAssigns(events[..n]), LastAssigns(events[..n + 1]))
  }

  lemma {:induction false} SoundSoFar(events: seq<Event>, n: nat)
    requires SoundRun(events) && n <= |events|
    ensures Sound(LastAssigns(events[..n]))
  {
    if n > 0 {
      assert events[..n][..n - 1] == events[..n - 1] && events[..n][n - 1] == events[n - 1];
      SoundSoFar(events, n - 1);
    }
  }

  lemma StepRightIffNoMove(events: seq<Event>, n: nat)
    requires SoundRun(events) && n < |events|
    ensures StepRight(events[..n], events[n]) <==> NoMove(LastAssigns(events[..n]), LastAssigns(events[..n + 1]))
  {
    hide NoMove, SamePorts, Consistent, Sound, Plan;
    assert events[..n + 1][..n] == events[..n] && events[..n + 1][n] == events[n];
    var (a, b) := (LastAssigns(events[..n]), LastAssigns(events[..n + 1]));
    SoundSoFar(events, n);
    SoundSoFar(events, n + 1);
    SoundIsConsistent(b);
    SamePortsIffNoMove(a, b);
    KeptInPlace(a);
  }

  lemma KeptInPlace(a: seq<RoleAssignment>)
    requires Sound(a)
    ensures NoMove(a, a) && NoMove(a, [])
  {
  }

  /**
   With distinct keys, all relays always reach their decoders if and only if no receiver ever moves to another
   slot.
   */
  lemma AlwaysAgreesIffNoMove(events: seq<Event>)
    requires SoundRun(events)
    ensures AlwaysAgrees(events) <==> NeverMoves(events)
  {
    hide AlwaysAgrees, StepRight, NoMove;
    AlwaysAgreesIff(events);
    if AlwaysRight(events) {
      forall n | 0 <= n < |events| ensures NoMove(LastAssigns(events[..n]), LastAssigns(events[..n + 1])) {
        StepRightIffNoMove(events, n);
      }
    }
    if NeverMoves(events) {
      forall n | 0 <= n < |events| ensures StepRight(events[..n], events[n]) {
        StepRightIffNoMove(events, n);
      }
    }
  }

  // ----- Lists that only grow or shrink at their end -----

  /** The keys of the receivers with a role, in order. */
  function RoleKeys(a: seq<RoleAssignment>, n: nat, role: string): seq<string>
    requires n <= |a|
  {
    if n == 0 then []
    else RoleKeys(a, n - 1, role) + if a[n - 1].role == role then [Key(a[n - 1].dongle)] else []
  }

  lemma {:induction false} SlotIsPosition(a: seq<RoleAssignment>, n: nat, i: nat)
    requires i < n <= |a|
    ensures Slot(a, i) < |RoleKeys(a, n, a[i].role)| && RoleKeys(a, n, a[i].role)[Slot(a, i)] == Key(a[i].dongle)
  {
    RoleKeysCount(a, n - 1, a[i].role);
    if i < n - 1 {
      SlotIsPosition(a, n - 1, i);
    }
  }

  lemma {:induction false} RoleKeysCount(a: seq<RoleAssignment>, n: nat, role: string)
    requires n <= |a|
    ensures |RoleKeys(a, n, role)| == Count(a, n, role)
  {
    if n > 0 {
      RoleKeysCount(a, n - 1, role);
    }
  }

  /** The keys with a role only extend or lose keys at the end. */
  predicate EndsDiffer(a: seq<RoleAssignment>, b: seq<RoleAssignment>, role: string) {
    RoleKeys(a, |a|, role) <= RoleKeys(b, |b|, role) || RoleKeys(b, |b|, role) <= RoleKeys(a, |a|, role)
  }

  lemma AtSlot(a: seq<RoleAssignment>, i: nat, slot: nat)
    requires Sound(a) && i < |a| && slot < |RoleKeys(a, |a|, a[i].role)| &&
        RoleKeys(a, |a|, a[i].role)[slot] == Key(a[i].dongle)
    ensures Slot(a, i) == slot
  {
    hide RoleKeys, Count, Slot;
    RoleKeysCount(a, |a|, a[i].role);
    SlotTaken(a, |a|, a[i].role, slot);
    var j :| 0 <= j < |a| && a[j].role == a[i].role && Slot(a, j) == slot;
    SlotIsPosition(a, |a|, j);
  }

  /** Plugging in behind the others of its role, or unplugging the last ones, moves no receiver. */
  lemma EndChangesMoveNothing(a: seq<RoleAssignment>, b: seq<RoleAssignment>)
    requires Sound(a) && Sound(b) && EndsDiffer(a, b, ADSB) && EndsDiffer(a, b, VDL2)
    ensures NoMove(a, b)
  {
    forall i, j | 0 <= i < |a| && 0 <= j < |b| && SameReceiver(a[i], b[j]) ensures Slot(a, i) == Slot(b, j) {
      var role := a[i].role;
      SlotIsPosition(a, |a|, i);
      SlotIsPosition(b, |b|, j);
      if RoleKeys(a, |a|, role) <= RoleKeys(b, |b|, role) {
        AtSlot(b, j, Slot(a, i));
      } else {
        AtSlot(a, i, Slot(b, j));
      }
    }
  }

  /** In no event of a run the keys of a role change but at their end. */
  ghost predicate OnlyEndsChange(events: seq<Event>) {
    forall n :: 0 <= n < |events| ==> EndChange(LastAssigns(events[..n]), LastAssigns(events[..n + 1]))
  }

  predicate EndChange(a: seq<RoleAssignment>, b: seq<RoleAssignment>) {
    EndsDiffer(a, b, ADSB) && EndsDiffer(a, b, VDL2)
  }

  /** If each tick only extends or shrinks each role's keys at their end, all relays always reach their decoders. */
  lemma EndChangesAlwaysAgree(events: seq<Event>)
    requires SoundRun(events) && OnlyEndsChange(events)
    ensures AlwaysAgrees(events)
  {
    forall n | 0 <= n < |events| ensures NoMove(LastAssigns(events[..n]), LastAssigns(events[..n + 1])) {
      SoundSoFar(events, n);
      SoundSoFar(events, n + 1);
      assert EndChange(LastAssigns(events[..n]), LastAssigns(events[..n + 1]));
      EndChangesMoveNothing(LastAssigns(events[..n]), LastAssigns(events[..n + 1]));
    }
    AlwaysAgreesIffNoMove(events);
  }

  // ----- The ports of a first tick, written out -----

  /**
   With distinct keys, a relay that was not there dials, for the k-th ADS-B receiver, port
   30005 + 100 k, and for the k-th VDL2 one 5553 + k, on which its decoder serves.
   */
  lemma NewRelayPorts(s: Sup, a: seq<RoleAssignment>, i: nat)
    requires Conserved(s) && Sound(a) && i < |a| && (a[i].role == "adsb" || a[i].role == "vdl2")
    requires a[i].role + ":" + Key(a[i].dongle) !in s.forwarders
    ensures var (t, key) := (Reconciled(s, Plan(a)), Key(a[i].dongle));
            var (relay, k) := (a[i].role + ":" + key, Before(a, i, a[i].role));
            && key in t.active && relay in t.forwarders && t.forwarders[relay] < |t.contexts|
            && t.contexts[t.forwarders[relay]] ==
               Forwarder(relay, if a[i].role == "adsb" then t.active[key].ports.beast else t.active[key].ports.vdl2)
            && (a[i].role == "adsb" ==>
                t.active[key].ports.beast == 30005 + 100 * k && t.active[key].ports.sbs == 30003 + 100 * k)
            && (a[i].role == "vdl2" ==> t.active[key].ports.vdl2 == 5553 + k)
  {
    hide Reconciled, Conserved, PortsFor, Before;
    PortsOfReceiver(a, i);
    SoundIsConsistent(a);
    var p := Plan(a);
    var first := DialsAfterTick(s, p, i);
    OnlyWanter(a, first, i);
    var last := ServedAfterTick(s, p, i);
  }

  // ----- Runs that go wrong -----

  /** The relay of a receiver dials the port of the second slot. */
  predicate DialsSecondSlot(s: Sup, e: Dongle) {
    var key := "adsb:" + Key(e);
    key in s.forwarders && s.forwarders[key] < |s.contexts| && s.contexts[s.forwarders[key]] == Forwarder(key, 30105)
  }

  lemma SecondOfTwo(d: Dongle, e: Dongle)
    requires Key(d) != Key(e)
    ensures DialsSecondSlot(Reconciled(IDLE, Plan([RoleAssignment(d, ADSB), RoleAssignment(e, ADSB)])), e)
  {
    var both := [RoleAssignment(d, ADSB), RoleAssignment(e, ADSB)];
    assert Count(both, 1, ADSB) == Count(both, 0, ADSB) + 1 == 1;
    assert Slot(both, 1) == 1;
    var f := Plan(both)[1];
    assert f == Entry(e, ADSB, Ports(30105, 30103, 0)) && RelayKey(f) == "adsb:" + Key(e);
    assert Sound(both) && Conserved(IDLE) && StillRight(IDLE, f);
    var first := DialsAfterTick(IDLE, Plan(both), 1);
    OnlyWanter(both, first, 1);
  }

  lemma AloneNow(s: Sup, e: Dongle)
    requires Conserved(s) && DialsSecondSlot(s, e)
    ensures var t := Reconciled(s, Plan([RoleAssignment(e, ADSB)]));
            DialsSecondSlot(t, e) && !Agrees(t) && Key(e) in t.active && t.active[Key(e)].ports.beast == 30005
  {
    var a := [RoleAssignment(e, ADSB)];
    var (p, t) := (Plan(a), Reconciled(s, Plan(a)));
    assert Slot(a, 0) == 0;
    assert p[0] == Entry(e, ADSB, Ports(30005, 30003, 0)) && RelayKey(p[0]) == "adsb:" + Key(e);
    DecodersAfterTick(s, p);
    RelayAfterTick(s, p, 0);
    assert t.inventory == multiset(p);
    hide Reconciled, Plan;
    assert s.contexts[s.forwarders[RelayKey(p[0])]] == t.contexts[s.forwarders[RelayKey(p[0])]];
    assert !Reaches(t, p[0]) && p[0] in t.inventory;
  }

  /**
   Unplugging the first of two ADS-B dongles leaves the second one's relay dialling a port nothing serves, for
   good.
   */
  lemma {:induction false} MovedSlotMisdials(d: Dongle, e: Dongle, again: nat)
    requires Key(d) != Key(e)
    ensures var s := Run(Unplugged(d, e, again + 1));
            && Conserved(s) && DialsSecondSlot(s, e) && s.forwarders["adsb:" + Key(e)] !in s.cancelled
            && !Agrees(s) && Key(e) in s.active && s.active[Key(e)].ports.beast == 30005
  {
    hide Conserved, Reconciled, Run, Agrees;
    var events := Unplugged(d, e, again);
    var s := Run(events);
    assert Unplugged(d, e, again + 1) == events + [Tick(true, [RoleAssignment(e, ADSB)])];
    EveryRunConserves(events);
    EveryRunConserves(Unplugged(d, e, again + 1));
    if again == 0 {
      assert events == [] + [Tick(true, [RoleAssignment(d, ADSB), RoleAssignment(e, ADSB)])];
      RunPlus([], Tick(true, [RoleAssignment(d, ADSB), RoleAssignment(e, ADSB)]));
      FromIdle();
      SecondOfTwo(d, e);
    } else {
      MovedSlotMisdials(d, e, again - 1);
    }
    AloneNow(s, e);
    RunPlus(events, Tick(true, [RoleAssignment(e, ADSB)]));
    LiveForwarder(Run(Unplugged(d, e, again + 1)), "adsb:" + Key(e));
  }

  lemma RunPlus(events: seq<Event>, e: Event)
    ensures Run(events + [e]) == After(Run(events), e)
  {
    assert (events + [e])[..|events|] == events;
  }

  lemma FromIdle()
    ensures Run([]) == IDLE
  {
  }

  lemma LiveForwarder(s: Sup, key: string)
    requires Conserved(s) && key in s.forwarders
    ensures s.forwarders[key] !in s.cancelled
  {
    assert OwnForwarder(s, key) && Current(s, s.forwarders[key]);
  }

  /** Two ADS-B dongles, then `n` ticks with only the second of them. */
  function Unplugged(d: Dongle, e: Dongle, n: nat): seq<Event> {
    [Tick(true, [RoleAssignment(d, ADSB), RoleAssignment(e, ADSB)])] +
        seq(n, _ => Tick(true, [RoleAssignment(e, ADSB)]))
  }

  /** A dongle switched off keeps its decoder running; only its relay is stopped. */
  lemma OffKeepsDecoding(d: Dongle)
    ensures var on := Run([Tick(true, [RoleAssignment(d, ADSB)])]);
            var off := Run([Tick(true, [RoleAssignment(d, ADSB)]), Tick(true, [RoleAssignment(d, OFF)])]);
            && Key(d) in on.active && Key(d) in off.active && off.active[Key(d)] == on.active[Key(d)]
            && off.active[Key(d)].ctx !in off.cancelled && off.forwarders == map[]
  {
    var (one, two) := ([Tick(true, [RoleAssignment(d, ADSB)])],
        [Tick(true, [RoleAssignment(d, ADSB)]), Tick(true, [RoleAssignment(d, OFF)])]);
    assert one[..0] == [] && two[..1] == one;
    var (p, q) := (Plan([RoleAssignment(d, ADSB)]), Plan([RoleAssignment(d, OFF)]));
    EveryRunConserves(one);
    EveryRunConserves(two);
    DecodersAfterTick(IDLE, p);
    DecodersAfterTick(Run(one), q);
    RelaysAfterTick(Run(one), q);
    assert p[0].role == ADSB && q[0].role == OFF;
    assert Run(one) == Reconciled(IDLE, p) && Run(two) == Reconciled(Run(one), q);
    hide Reconciled, Run, Plan;
    assert EntryKey(q[0]) in KeysOff(q);
    assert OwnDecoder(Run(two), Key(d)) && Current(Run(two), Run(two).active[Key(d)].ctx);
  }
}
