/** What one tick of the supervisor results in, and when the next one changes nothing (agent/decoders.go). */
module Ticks {
  import opened Roles
  import opened PortPlan
  import opened Supervisor
  import opened Lifecycle

  /** Entry `i` asks for a decoder at `key`. */
  predicate Asks(p: seq<Entry>, i: int, key: string) {
    0 <= i < |p| && p[i].role != OFF && EntryKey(p[i]) == key
  }

  /** A key has the same decoder, or none, in both states. */
  predicate SameAt(s: Sup, t: Sup, key: string) {
    (key in s.active <==> key in t.active) && (key in s.active ==> s.active[key] == t.active[key])
  }

  /** All of the first `n` entries that ask for a decoder at `key` find theirs running. */
  ghost predicate AllMatch(s: Sup, p: seq<Entry>, n: nat, key: string)
    requires n <= |p|
  {
    forall i :: 0 <= i < n && Asks(p, i, key) ==> Matches(s, p[i])
  }

  /** Entry `i` is the last of the first `n` to ask for a decoder at `key`. */
  ghost predicate LastToAsk(p: seq<Entry>, n: nat, key: string, i: int)
    requires n <= |p|
  {
    0 <= i < n && Asks(p, i, key) && forall j :: i < j < n ==> !Asks(p, j, key)
  }

  lemma AdoptAt(u: Sup, e: Entry, key: string)
    ensures var (t, asks) := (Adopt(u, e), e.role != OFF && EntryKey(e) == key);
            && |u.contexts| <= |t.contexts| && t.forwarders == u.forwarders
            && (!asks || Matches(u, e) ==> SameAt(u, t, key))
            && (asks ==> Matches(t, e))
            && (asks && !Matches(u, e) ==> t.active[key].ctx == |u.contexts|)
  {
  }

  /** Per key: nothing changes while every asker is served; otherwise the decoder is new and serves the last asker. */
  lemma {:induction false} AdoptedAt(s: Sup, p: seq<Entry>, n: nat, key: string)
    requires n <= |p|
    ensures var t := Adopted(s, p, n);
            && |s.contexts| <= |t.contexts| && t.forwarders == s.forwarders
            && (AllMatch(s, p, n, key) ==> SameAt(s, t, key))
            && (!AllMatch(s, p, n, key) ==> key in t.active && t.active[key].ctx >= |s.contexts|)
            && (forall i :: LastToAsk(p, n, key, i) ==> Matches(t, p[i]))
  {
    if n > 0 {
      AdoptedAt(s, p, n - 1, key);
      var (u, e) := (Adopted(s, p, n - 1), p[n - 1]);
      AdoptAt(u, e, key);
      hide Adopt;
      if Asks(p, n - 1, key) {
        assert AllMatch(s, p, n, key) <==> AllMatch(s, p, n - 1, key) && Matches(s, e);
      } else {
        assert AllMatch(s, p, n, key) <==> AllMatch(s, p, n - 1, key);
        assert forall i :: LastToAsk(p, n, key, i) ==> LastToAsk(p, n - 1, key, i);
      }
    }
  }

  lemma {:induction false} LastAsker(p: seq<Entry>, n: nat, key: string, i: int) returns (last: int)
    requires n <= |p| && i < n && Asks(p, i, key)
    ensures LastToAsk(p, n, key, last)
  {
    if Asks(p, n - 1, key) {
      last := n - 1;
    } else {
      last := LastAsker(p, n - 1, key, i);
    }
  }

  lemma {:induction false} ForwardedActive(s: Sup, p: seq<Entry>, n: nat)
    requires n <= |p|
    ensures Forwarded(s, p, n).active == s.active && s.contexts <= Forwarded(s, p, n).contexts
  {
    if n > 0 {
      ForwardedActive(s, p, n - 1);
    }
  }

  /** The decoders after a tick: those adopted whose dongle was seen. */
  lemma ReconciledActive(s: Sup, p: seq<Entry>, key: string)
    ensures var (t, a) := (Reconciled(s, p), Adopted(s, p, |p|));
            && (key in t.active <==> key in a.active && key in Seen(p))
            && (key in t.active ==> t.active[key] == a.active[key])
            && |a.contexts| <= |t.contexts|
  {
    ForwardedActive(DropUnseen(Adopted(s, p, |p|), Seen(p)), p, |p|);
  }

  /**
   The decoder of any one key after a tick, for any list of receivers: gone if
   not enumerated; untouched, running or not, if only off receivers have the key;
   otherwise the one the last asker wants, and kept exactly if all askers were served.
   */
  lemma DecoderAfterTick(s: Sup, p: seq<Entry>, key: string)
    requires Conserved(s)
    ensures var t := Reconciled(s, p);
            && (key !in Seen(p) ==> key !in t.active)
            && (key in Seen(p) ==> (SameAt(s, t, key) <==> AllMatch(s, p, |p|, key)))
            && (forall i :: LastToAsk(p, |p|, key, i) ==> Matches(t, p[i]))
            && (key in Seen(p) && !AllMatch(s, p, |p|, key) ==> key in t.active && t.active[key].ctx >= |s.contexts|)
  {
    var (t, a) := (Reconciled(s, p), Adopted(s, p, |p|));
    AdoptedAt(s, p, |p|, key);
    ReconciledActive(s, p, key);
    forall i | LastToAsk(p, |p|, key, i) ensures Matches(t, p[i]) {
      assert key in Seen(p);
    }
    if key in s.active {
      assert OwnDecoder(s, key);
    }
  }

  // ----- Distinct keys -----

  ghost predicate DistinctKeys(p: seq<Entry>) {
    forall i, j :: 0 <= i < j < |p| ==> EntryKey(p[i]) != EntryKey(p[j])
  }

  function KeysOn(p: seq<Entry>): set<string> {
    set i | 0 <= i < |p| && p[i].role != OFF :: EntryKey(p[i])
  }

  function KeysOff(p: seq<Entry>): set<string> {
    set i | 0 <= i < |p| && p[i].role == OFF :: EntryKey(p[i])
  }

  /**
   With distinct keys, every receiver that is on has exactly the decoder assigned
   to it, kept if it already ran so and new if not; a decoder whose receiver is
   off runs if and only if it did; every other one is gone.
   */
  lemma DecodersAfterTick(s: Sup, p: seq<Entry>)
    requires Conserved(s) && DistinctKeys(p)
    ensures var t := Reconciled(s, p);
            && t.active.Keys == KeysOn(p) + KeysOff(p) * s.active.Keys
            && (forall i :: 0 <= i < |p| && p[i].role != OFF ==>
                  Matches(t, p[i]) && (SameAt(s, t, EntryKey(p[i])) <==> Matches(s, p[i])))
            && (forall key :: key in KeysOff(p) ==> SameAt(s, t, key))
  {
    var t := Reconciled(s, p);
    hide Reconciled;
    forall i | 0 <= i < |p| && p[i].role != OFF
      ensures Matches(t, p[i]) && (SameAt(s, t, EntryKey(p[i])) <==> Matches(s, p[i]))
    {
      var key := EntryKey(p[i]);
      OnlyAsker(s, p, i);
      DecoderAfterTick(s, p, key);
    }
    forall i | 0 <= i < |p| && p[i].role == OFF ensures SameAt(s, t, EntryKey(p[i])) {
      NoAsker(s, p, i);
      DecoderAfterTick(s, p, EntryKey(p[i]));
    }
    forall key ensures key in t.active <==> key in KeysOn(p) + KeysOff(p) * s.active.Keys {
      SeenIsOnOrOff(p, key);
      DecoderAfterTick(s, p, key);
    }
  }

  lemma OnlyAsker(s: Sup, p: seq<Entry>, i: nat)
    requires DistinctKeys(p) && i < |p| && p[i].role != OFF
    ensures LastToAsk(p, |p|, EntryKey(p[i]), i) && EntryKey(p[i]) in Seen(p)
    ensures AllMatch(s, p, |p|, EntryKey(p[i])) <==> Matches(s, p[i])
  {
  }

  lemma NoAsker(s: Sup, p: seq<Entry>, i: nat)
    requires DistinctKeys(p) && i < |p| && p[i].role == OFF
    ensures AllMatch(s, p, |p|, EntryKey(p[i])) && EntryKey(p[i]) in Seen(p)
  {
  }

  lemma SeenIsOnOrOff(p: seq<Entry>, key: string)
    ensures key in Seen(p) <==> key in KeysOn(p) || key in KeysOff(p)
  {
  }

  // ----- Repeating a tick -----

  /** Receivers that are on have different keys. */
  ghost predicate DistinctOn(p: seq<Entry>) {
    forall i, j :: 0 <= i < j < |p| && p[i].role != OFF && p[j].role != OFF ==> EntryKey(p[i]) != EntryKey(p[j])
  }

  /** Devices have different indices, as every enumeration gives. */
  ghost predicate DistinctIndices(p: seq<Entry>) {
    forall i, j :: 0 <= i < j < |p| ==> p[i].dongle.index != p[j].dongle.index
  }

  lemma {:induction false} AdoptedServed(s: Sup, p: seq<Entry>, n: nat)
    requires n <= |p| && forall i :: 0 <= i < n && p[i].role != OFF ==> Matches(s, p[i])
    ensures Adopted(s, p, n) == s
  {
    if n > 0 {
      AdoptedServed(s, p, n - 1);
    }
  }

  lemma {:induction false} ForwardedServed(s: Sup, p: seq<Entry>, n: nat)
    requires n <= |p| && forall i :: 0 <= i < n && Relayed(p[i]) ==> RelayKey(p[i]) in s.forwarders
    ensures Forwarded(s, p, n) == s
  {
    if n > 0 {
      ForwardedServed(s, p, n - 1);
    }
  }

  predicate WantsKey(e: Entry, key: string) {
    Relayed(e) && RelayKey(e) == key
  }

  /** Entry `i` wants the relay with this key. */
  predicate Wants(p: seq<Entry>, i: int, key: string) {
    0 <= i < |p| && WantsKey(p[i], key)
  }

  lemma ForwardAt(u: Sup, e: Entry, key: string)
    ensures var t := Forward(u, e);
            && u.contexts <= t.contexts
            && (key in u.forwarders ==> key in t.forwarders && t.forwarders[key] == u.forwarders[key])
            && (key in t.forwarders <==> key in u.forwarders || WantsKey(e, key))
            && (WantsKey(e, key) && key !in u.forwarders ==>
                  t.forwarders[key] == |u.contexts| && t.contexts == u.contexts + [Forwarder(key, RelayPort(e))])
  {
  }

  /**
   The relays after a tick: for each key at most one, kept if it was there, otherwise dialling the first
   receiver's port.
   */
  lemma {:induction false} ForwardedAt(s: Sup, p: seq<Entry>, n: nat, key: string)
    requires n <= |p|
    ensures var t := Forwarded(s, p, n);
            && s.contexts <= t.contexts
            && (key in s.forwarders ==> key in t.forwarders && t.forwarders[key] == s.forwarders[key])
            && (key in t.forwarders <==> key in s.forwarders || exists i :: 0 <= i < n && Wants(p, i, key))
            && (forall i :: 0 <= i < n && key !in s.forwarders && FirstToWant(p, i, key) ==>
                  t.forwarders[key] < |t.contexts| && t.contexts[t.forwarders[key]] == Forwarder(key, RelayPort(p[i])))
  {
    if n > 0 {
      ForwardedAt(s, p, n - 1, key);
      ForwardAt(Forwarded(s, p, n - 1), p[n - 1], key);
      hide Forward, RelayKey, RelayPort, Relayed;
      assert Wants(p, n - 1, key) <==> WantsKey(p[n - 1], key);
    }
  }

  /** Entry `i` is the first to want the relay with this key. */
  ghost predicate FirstToWant(p: seq<Entry>, i: int, key: string) {
    Wants(p, i, key) && forall j :: 0 <= j < i ==> !Wants(p, j, key)
  }

  /** After a tick the relays are exactly those of the relayed receivers; those that were there are kept. */
  lemma RelaysAfterTick(s: Sup, p: seq<Entry>)
    ensures var t := Reconciled(s, p);
            && t.forwarders.Keys == Wanted(p)
            && forall key :: key in Wanted(p) && key in s.forwarders ==> t.forwarders[key] == s.forwarders[key]
  {
    var b := DropUnseen(Adopted(s, p, |p|), Seen(p));
    var t := Reconciled(s, p);
    forall key
      ensures key in t.forwarders <==> key in Wanted(p)
      ensures key in Wanted(p) && key in s.forwarders ==> t.forwarders[key] == s.forwarders[key]
    {
      AdoptedAt(s, p, |p|, key);
      ForwardedAt(b, p, |p|, key);
      if key in Wanted(p) {
        var i :| 0 <= i < |p| && Relayed(p[i]) && RelayKey(p[i]) == key;
        assert Wants(p, i, key);
      }
    }
  }

  /** The relays after a tick, by name: one for each receiver that is neither off nor UAT. */
  lemma RelaysSpelled(s: Sup, p: seq<Entry>, relay: string)
    ensures relay in Reconciled(s, p).forwarders <==>
            exists i :: 0 <= i < |p| && p[i].role != "off" && p[i].role != "uat" &&
                        relay == p[i].role + ":" + EntryKey(p[i])
  {
    RelaysAfterTick(s, p);
  }

  /**
   The relay of the first receiver that wants its key: the one that was there, or a new one dialling the
   receiver's port.
   */
  lemma RelayAfterTick(s: Sup, p: seq<Entry>, i: nat)
    requires i < |p| && Relayed(p[i]) && forall j :: 0 <= j < i ==> !Wants(p, j, RelayKey(p[i]))
    requires Conserved(s)
    ensures var (t, key) := (Reconciled(s, p), RelayKey(p[i]));
            && s.contexts <= t.contexts && key in t.forwarders && t.forwarders[key] < |t.contexts|
            && (key in s.forwarders ==> t.forwarders[key] == s.forwarders[key])
            && (key !in s.forwarders ==> t.contexts[t.forwarders[key]] == Forwarder(key, RelayPort(p[i])))
  {
    var (t, key) := (Reconciled(s, p), RelayKey(p[i]));
    ReconciledConserves(s, p);
    RelaysAfterTick(s, p);
    assert key in Wanted(p);
    assert OwnForwarder(t, key);
    AdoptedAt(s, p, |p|, key);
    ForwardedAt(DropUnseen(Adopted(s, p, |p|), Seen(p)), p, |p|, key);
    assert FirstToWant(p, i, key);
  }

  lemma NoneUnseen(t: Sup, seen: set<string>)
    requires t.active.Keys <= seen
    ensures DropUnseen(t, seen) == t
  {
    assert forall k :: k in t.active ==> k in seen;
    assert DropUnseen(t, seen).active == t.active;
  }

  lemma NoneUnwanted(t: Sup, wanted: set<string>)
    requires t.forwarders.Keys <= wanted
    ensures DropUnwanted(t, wanted) == t
  {
    assert forall k :: k in t.forwarders ==> k in wanted;
    assert DropUnwanted(t, wanted).forwarders == t.forwarders;
  }

  lemma AllForwarded(t: Sup, p: seq<Entry>)
    requires t.forwarders.Keys == Wanted(p)
    ensures Forwarded(t, p, |p|) == t
  {
    forall i | 0 <= i < |p| && Relayed(p[i]) ensures RelayKey(p[i]) in t.forwarders {
      assert RelayKey(p[i]) in Wanted(p);
    }
    ForwardedServed(t, p, |p|);
  }

  lemma ServedIsStable(t: Sup, p: seq<Entry>)
    requires t.inventory == multiset(p) && t.active.Keys <= Seen(p) && t.forwarders.Keys == Wanted(p)
    requires forall i :: 0 <= i < |p| && p[i].role != OFF ==> Matches(t, p[i])
    ensures Reconciled(t, p) == t
  {
    AdoptedServed(t, p, |p|);
    NoneUnseen(t, Seen(p));
    AllForwarded(t, p);
    NoneUnwanted(t, Wanted(p));
    hide Adopted, Forwarded, DropUnseen, DropUnwanted, Seen, Wanted, Matches;
  }

  lemma OnIsServed(s: Sup, p: seq<Entry>, i: nat)
    requires Conserved(s) && DistinctOn(p) && i < |p| && p[i].role != OFF
    ensures Matches(Reconciled(s, p), p[i])
  {
    DecoderAfterTick(s, p, EntryKey(p[i]));
    assert LastToAsk(p, |p|, EntryKey(p[i]), i);
  }

  /** Two receivers with one key cannot both be served, so the key's decoder is replaced on every tick. */
  lemma SharedKeyRestarts(s: Sup, p: seq<Entry>, i: nat, j: nat)
    requires Conserved(s) && DistinctIndices(p) && i < j < |p| && p[i].role != OFF && p[j].role != OFF
    requires EntryKey(p[i]) == EntryKey(p[j])
    ensures var t := Reconciled(s, p); var key := EntryKey(p[i]);
            key in t.active && t.active[key].ctx >= |s.contexts|
  {
    var key := EntryKey(p[i]);
    DecoderAfterTick(s, p, key);
    assert key in Seen(p) && Asks(p, i, key) && Asks(p, j, key);
    if AllMatch(s, p, |p|, key) {
      IdentityHoldsIndex(p[i].dongle, p[j].dongle);
    }
  }

  /**
   Repeating a tick changes nothing exactly if the receivers that are on have different keys; otherwise it
   starts decoders anew.
   */
  lemma StableIff(s: Sup, p: seq<Entry>)
    requires Conserved(s) && DistinctIndices(p)
    ensures var t := Reconciled(s, p);
            && (Reconciled(t, p) == t <==> DistinctOn(p))
            && (|Reconciled(t, p).contexts| == |t.contexts| <==> DistinctOn(p))
  {
    var t := Reconciled(s, p);
    ReconciledConserves(s, p);
    if DistinctOn(p) {
      forall key | key in t.active ensures key in Seen(p) {
        DecoderAfterTick(s, p, key);
      }
      forall i | 0 <= i < |p| && p[i].role != OFF ensures Matches(t, p[i]) {
        OnIsServed(s, p, i);
      }
      RelaysAfterTick(s, p);
      ServedIsStable(t, p);
    } else {
      var i, j :| 0 <= i < j < |p| && p[i].role != OFF && p[j].role != OFF && EntryKey(p[i]) == EntryKey(p[j]);
      ReconciledConserves(t, p);
      SharedKeyRestarts(t, p, i, j);
      assert OwnDecoder(Reconciled(t, p), EntryKey(p[i]));
    }
  }

  // ----- Bouncing the decoders -----

  /** The supervisor when feeding is switched off and on again, with a tick in between or not, and then ticks. */
  function Bounced(s: Sup, a: seq<RoleAssignment>, tickInside: bool): Sup {
    After(if tickInside then After(s, Tick(false, [])) else s, Tick(true, a))
  }

  lemma NewAfterStop(s: Sup, e: Event)
    requires Conserved(s)
    ensures var t := After(Stopped(s), e);
            && (forall key :: key in t.active ==> t.active[key].ctx >= |s.contexts|)
            && (forall key :: key in t.forwarders ==> t.forwarders[key] >= |s.contexts|)
  {
    hide Stopped, After;
    StoppedConserves(s);
    AfterConserves(Stopped(s), e);
    var t := After(Stopped(s), e);
    forall key | key in t.active ensures t.active[key].ctx >= |s.contexts| {
      assert OwnDecoder(t, key) && Current(t, t.active[key].ctx);
    }
    forall key | key in t.forwarders ensures t.forwarders[key] >= |s.contexts| {
      assert OwnForwarder(t, key) && Current(t, t.forwarders[key]);
    }
  }

  /**
   Feed and gain are not compared when a tick decides whether a decoder or relay is kept.  After
   settings changed, with the same dongles found again, every decoder and relay is started
   anew if and only if a tick falls between switching feeding off and on.
   */
  lemma BounceRestartsIff(s: Sup, a: seq<RoleAssignment>, tickInside: bool)
    requires Conserved(s) && a != [] && DistinctIndices(Plan(a)) && DistinctOn(Plan(a))
    ensures var before := Reconciled(s, Plan(a)); var t := Bounced(before, a, tickInside);
            && (forall key :: key in t.active ==> (t.active[key].ctx >= |before.contexts| <==> tickInside))
            && (forall key :: key in t.forwarders ==> (t.forwarders[key] >= |before.contexts| <==> tickInside))
            && (!tickInside ==> t == before)
  {
    var before := Reconciled(s, Plan(a));
    ReconciledConserves(s, Plan(a));
    hide Reconciled, Stopped, Plan;
    if tickInside {
      NewAfterStop(before, Tick(true, a));
    } else {
      StableIff(s, Plan(a));
      forall key | key in before.active ensures before.active[key].ctx < |before.contexts| {
        assert OwnDecoder(before, key);
      }
      forall key | key in before.forwarders ensures before.forwarders[key] < |before.contexts| {
        assert OwnForwarder(before, key);
      }
    }
  }
}
