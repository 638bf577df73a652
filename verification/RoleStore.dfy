/** The roles a dongle can have (agent/decoders.go). */
module Roles {

  const ADSB := "adsb"
  const UAT := "uat"
  const VDL2 := "vdl2"
  const OFF := "off"

  predicate IsRole(role: string) {
    role in {ADSB, UAT, VDL2, OFF}
  }

  /** A role that cannot be confused with a role and a key; the server can push any string. */
  predicate IsPlain(role: string) {
    ':' !in role
  }
}

/**
 Role assignments: the persisted store, server-pushed settings and the
 assignment of a role to each enumerated dongle (agent/config.go, agent/main.go,
 agent/decoders.go).
 */
module RoleStore {
  import opened Common
  import opened Roles

  datatype DongleRole = DongleRole(serial: string, role: string)

  datatype Assignment = Assignment(key: string, role: string)

  // ----- The store as a list -----

  /** The role of the first entry for a serial; "" when there is none. */
  function Lookup(roles: seq<DongleRole>, serial: string): string {
    if roles == [] then ""
    else if roles[0].serial == serial then roles[0].role
    else Lookup(roles[1..], serial)
  }

  /** The first entry for a serial is updated, or a new one appended. */
  function Updated(roles: seq<DongleRole>, serial: string, role: string): seq<DongleRole> {
    if roles == [] then [DongleRole(serial, role)]
    else if roles[0].serial == serial then [roles[0].(role := role)] + roles[1..]
    else [roles[0]] + Updated(roles[1..], serial, role)
  }

  /** The map a list stands for: the first entry of each serial. */
  function Abs(roles: seq<DongleRole>): map<string, string> {
    if roles == [] then map[] else Abs(roles[1..])[roles[0].serial := roles[0].role]
  }

  /** The list refines a map, repeated serials included. */
  lemma {:induction false} ListIsMap(roles: seq<DongleRole>, serial: string, role: string)
    ensures Lookup(roles, serial) == (if serial in Abs(roles) then Abs(roles)[serial] else "")
    ensures Abs(Updated(roles, serial, role)) == Abs(roles)[serial := role]
  {
    if roles != [] && roles[0].serial != serial {
      ListIsMap(roles[1..], serial, role);
      assert Updated(roles, serial, role)[1..] == Updated(roles[1..], serial, role);
    }
  }

  // ----- Settings pushed by the server -----

  datatype Settings = Settings(feed: string, vdl2Feed: string, gain: string)

  /** A pushed configuration: absent settings, and the role entries in the order a map iteration yields them. */
  datatype Push = Push(feed: Option<string>, vdl2Feed: Option<string>, gain: Option<string>, roles: seq<DongleRole>)

  predicate DistinctSerials(roles: seq<DongleRole>) {
    forall i, j :: 0 <= i < j < |roles| ==> roles[i].serial != roles[j].serial
  }

  function Overridden(current: string, pushed: Option<string>): string {
    if pushed.Some? && pushed.value != "" then pushed.value else current
  }

  function ApplySettings(s: Settings, p: Push): Settings {
    Settings(Overridden(s.feed, p.feed), Overridden(s.vdl2Feed, p.vdl2Feed), Overridden(s.gain, p.gain))
  }

  function ApplyRoles(roles: seq<DongleRole>, pushed: seq<DongleRole>): seq<DongleRole>
    decreases |pushed|
  {
    if pushed == [] then roles
    else ApplyRoles(Updated(roles, pushed[0].serial, pushed[0].role), pushed[1..])
  }

  /**
   A pushed setting that is present and not empty replaces the one it is for; every other stays; the same push
   again changes nothing.
   */
  lemma SettingsAreReplaced(s: Settings, p: Push)
    ensures var t := ApplySettings(s, p);
            && t.feed == (if p.feed.Some? && p.feed.value != "" then p.feed.value else s.feed)
            && t.vdl2Feed == (if p.vdl2Feed.Some? && p.vdl2Feed.value != "" then p.vdl2Feed.value else s.vdl2Feed)
            && t.gain == (if p.gain.Some? && p.gain.value != "" then p.gain.value else s.gain)
            && ApplySettings(t, p) == t
  {
  }

  /** Whether a pushed role list changes the store. */
  predicate RolesChange(roles: seq<DongleRole>, pushed: seq<DongleRole>) {
    exists i :: 0 <= i < |pushed| && !(pushed[i].serial in Abs(roles) && Abs(roles)[pushed[i].serial] == pushed[i].role)
  }

  lemma {:induction false} ApplyRolesIsOverride(roles: seq<DongleRole>, pushed: seq<DongleRole>)
    requires DistinctSerials(pushed)
    ensures Abs(ApplyRoles(roles, pushed)) == Abs(roles) + Abs(pushed)
    decreases |pushed|
  {
    if pushed != [] {
      var first, rest := pushed[0], pushed[1..];
      ListIsMap(roles, first.serial, first.role);
      OnlyListed(rest);
      assert first.serial !in Abs(rest);
      ApplyRolesIsOverride(Updated(roles, first.serial, first.role), rest);
      EarlierEntry(Abs(roles), Abs(rest), first.serial, first.role);
    }
  }

  lemma EarlierEntry(m: map<string, string>, later: map<string, string>, k: string, v: string)
    requires k !in later
    ensures m[k := v] + later == m + later[k := v]
  {
  }

  lemma {:induction false} OnlyListed(roles: seq<DongleRole>)
    ensures forall serial :: serial in Abs(roles) <==> exists i :: 0 <= i < |roles| && roles[i].serial == serial
    ensures DistinctSerials(roles) ==> forall i :: 0 <= i < |roles| ==>
        roles[i].serial in Abs(roles) && Abs(roles)[roles[i].serial] == roles[i].role
  {
    if roles != [] {
      OnlyListed(roles[1..]);
      forall serial | serial in Abs(roles) && serial != roles[0].serial
        ensures exists i :: 0 <= i < |roles| && roles[i].serial == serial
      {
        assert serial in Abs(roles[1..]);
        var i :| 0 <= i < |roles[1..]| && roles[1..][i].serial == serial;
        assert roles[i + 1].serial == serial;
      }
      forall i | 0 <= i < |roles|
        ensures roles[i].serial in Abs(roles) &&
            (DistinctSerials(roles) ==> Abs(roles)[roles[i].serial] == roles[i].role)
      {
        if i > 0 {
          assert roles[i] == roles[1..][i - 1];
          assert DistinctSerials(roles) ==> DistinctSerials(roles[1..]);
        }
      }
    }
  }

  lemma SameEntriesSameMap(pushed: seq<DongleRole>, shuffled: seq<DongleRole>)
    requires DistinctSerials(pushed) && DistinctSerials(shuffled) && forall e :: e in pushed <==> e in shuffled
    ensures Abs(pushed) == Abs(shuffled)
  {
    OnlyListed(pushed);
    OnlyListed(shuffled);
    hide Abs;
    forall s ensures s in Abs(pushed) <==> s in Abs(shuffled) {
      if s in Abs(pushed) {
        var i :| 0 <= i < |pushed| && pushed[i].serial == s;
        assert pushed[i] in shuffled;
      }
      if s in Abs(shuffled) {
        var i :| 0 <= i < |shuffled| && shuffled[i].serial == s;
        assert shuffled[i] in pushed;
      }
    }
    forall s | s in Abs(pushed) ensures Abs(pushed)[s] == Abs(shuffled)[s] {
      var i :| 0 <= i < |pushed| && pushed[i].serial == s;
      assert pushed[i] in shuffled;
    }
  }

  /** Lookups after a push do not depend on the order in which its role map was iterated. */
  lemma IterationOrderIrrelevant(roles: seq<DongleRole>, pushed: seq<DongleRole>, shuffled: seq<DongleRole>,
      serial: string)
    requires DistinctSerials(pushed) && DistinctSerials(shuffled)
    requires forall e :: e in pushed <==> e in shuffled
    ensures Lookup(ApplyRoles(roles, pushed), serial) == Lookup(ApplyRoles(roles, shuffled), serial)
    ensures RolesChange(roles, pushed) == RolesChange(roles, shuffled)
  {
    ApplyRolesIsOverride(roles, pushed);
    ApplyRolesIsOverride(roles, shuffled);
    SameEntriesSameMap(pushed, shuffled);
    ListIsMap(ApplyRoles(roles, pushed), serial, "");
    ListIsMap(ApplyRoles(roles, shuffled), serial, "");
    hide Abs, Lookup, ApplyRoles;
    if RolesChange(roles, pushed) {
      var i :| 0 <= i < |pushed| && !(pushed[i].serial in Abs(roles) && Abs(roles)[pushed[i].serial] == pushed[i].role);
      assert pushed[i] in shuffled;
    }
    if RolesChange(roles, shuffled) {
      var i :| 0 <= i < |shuffled| &&
          !(shuffled[i].serial in Abs(roles) && Abs(roles)[shuffled[i].serial] == shuffled[i].role);
      assert shuffled[i] in pushed;
    }
  }

  /** A push reports a change of roles exactly when the map changes; pushing the same again changes nothing. */
  lemma ChangeIff(roles: seq<DongleRole>, pushed: seq<DongleRole>)
    requires DistinctSerials(pushed)
    ensures RolesChange(roles, pushed) <==> Abs(ApplyRoles(roles, pushed)) != Abs(roles)
    ensures !RolesChange(ApplyRoles(roles, pushed), pushed)
  {
    ApplyRolesIsOverride(roles, pushed);
    OnlyListed(pushed);
    if RolesChange(roles, pushed) {
      var i :| 0 <= i < |pushed| && !(pushed[i].serial in Abs(roles) && Abs(roles)[pushed[i].serial] == pushed[i].role);
      assert pushed[i].serial in Abs(pushed);
    } else {
      forall s | s in Abs(pushed) ensures s in Abs(roles) && Abs(roles)[s] == Abs(pushed)[s] {
        var i :| 0 <= i < |pushed| && pushed[i].serial == s;
      }
      assert Abs(roles) + Abs(pushed) == Abs(roles);
    }
  }

  // ----- Assigning roles -----

  /** Which decoder programs are installed. */
  datatype Programs = Programs(adsb: bool, vdl2: bool, uat: bool)

  /** Local entries win over stored ones, even an empty one. */
  function RoleOf(local: seq<DongleRole>, roles: seq<DongleRole>, serial: string): string {
    if serial in Abs(local) then Abs(local)[serial] else Lookup(roles, serial)
  }

  /** The role of a dongle with the given configured role; none when it has to be found by listening. */
  function Chosen(configured: string, defaultRole: string, programs: Programs): Option<string> {
    if configured != "" then Some(configured)
    else if defaultRole == ADSB && programs.adsb then Some(ADSB)
    else if defaultRole == VDL2 && programs.vdl2 then Some(VDL2)
    else if defaultRole == UAT && programs.uat then Some(UAT)
    else if programs.adsb && !programs.vdl2 then Some(ADSB)
    else if programs.vdl2 && !programs.adsb then Some(VDL2)
    else if programs.adsb && programs.vdl2 then None
    else Some(OFF)
  }

  /** What listening can answer: it never answers "off". */
  predicate IsProbeResult(role: string) {
    role == ADSB || role == VDL2
  }

  /** Roles already fixed by the installation. */
  datatype Fixed = Fixed(local: seq<DongleRole>, defaultRole: string)

  /** What assigning roles to `keys` yields: the store afterwards, the assignments, the keys that were probed. */
  datatype Assigned = Assigned(roles: seq<DongleRole>, out: seq<Assignment>, probed: seq<string>)

  function AssignOne(f: Fixed, roles: seq<DongleRole>, programs: Programs, key: string, heard: string): Assigned {
    var chosen := Chosen(RoleOf(f.local, roles, key), f.defaultRole, programs);
    var role := if chosen.Some? then chosen.value else heard;
    Assigned(if role != OFF then Updated(roles, key, role) else roles,
             [Assignment(key, role)], if chosen.None? then [key] else [])
  }

  /** `heard[i]` is what listening to dongle `i` would answer. */
  function AssignAll(f: Fixed, roles: seq<DongleRole>, programs: Programs, keys: seq<string>,
      heard: seq<string>): Assigned
    requires |heard| == |keys|
    decreases |keys|
  {
    if keys == [] then Assigned(roles, [], [])
    else
      var one := AssignOne(f, roles, programs, keys[0], heard[0]);
      var rest := AssignAll(f, one.roles, programs, keys[1..], heard[1..]);
      Assigned(rest.roles, one.out + rest.out, one.probed + rest.probed)
  }

  // ----- Which role a dongle gets -----

  /** The role configured for a key, locally or else in the store; "" if none. */
  function Configured(local: map<string, string>, stored: map<string, string>, key: string): string {
    if key in local then local[key] else if key in stored then stored[key] else ""
  }

  /** The default role names a decoder that is installed. */
  predicate DefaultApplies(defaultRole: string, programs: Programs) {
    || (defaultRole == "adsb" && programs.adsb)
    || (defaultRole == "vdl2" && programs.vdl2)
    || (defaultRole == "uat" && programs.uat)
  }

  /**
   A configured role is taken.  Otherwise the default is taken if its decoder is installed, otherwise
   the only installed one of ADS-B and VDL2; with both, listening decides, and with neither the
   dongle is off.  Any role but "off" is stored.
   */
  lemma RoleOfDongle(f: Fixed, roles: seq<DongleRole>, programs: Programs, key: string, heard: string)
    ensures var one := AssignOne(f, roles, programs, key, heard);
            && |one.out| == 1 && one.out[0].key == key
            && var role := one.out[0].role;
               var configured := Configured(Abs(f.local), Abs(roles), key);
               var open := configured == "" && !DefaultApplies(f.defaultRole, programs);
               && (configured != "" ==> role == configured)
               && (configured == "" && DefaultApplies(f.defaultRole, programs) ==> role == f.defaultRole)
               && (open && programs.adsb && !programs.vdl2 ==> role == "adsb")
               && (open && programs.vdl2 && !programs.adsb ==> role == "vdl2")
               && (open && programs.adsb && programs.vdl2 ==> role == heard && one.probed == [key])
               && (open && !programs.adsb && !programs.vdl2 ==> role == "off")
               && (!(open && programs.adsb && programs.vdl2) ==> one.probed == [])
               && Abs(one.roles) == if role == "off" then Abs(roles) else Abs(roles)[key := role]
  {
    ListIsMap(roles, key, AssignOne(f, roles, programs, key, heard).out[0].role);
    ListIsMap(roles, key, "");
  }

  /** Each dongle of a list gets the role it would get alone, and is listened to as it would be alone. */
  ghost predicate AsAlone(f: Fixed, before: seq<DongleRole>, programs: Programs, keys: seq<string>, heard: seq<string>,
      out: seq<Assignment>, probed: seq<string>)
    requires |heard| == |keys|
  {
    && |out| == |keys|
    && (forall i :: 0 <= i < |keys| ==>
          && [out[i]] == AssignOne(f, before, programs, keys[i], heard[i]).out
          && (keys[i] in probed <==> keys[i] in AssignOne(f, before, programs, keys[i], heard[i]).probed))
    && (forall k :: k in probed ==> k in keys)
  }

  lemma AsAloneCons(f: Fixed, before: seq<DongleRole>, programs: Programs, keys: seq<string>, heard: seq<string>,
      first: Assigned, out: seq<Assignment>, probed: seq<string>)
    requires |heard| == |keys| > 0 && Distinct(keys) && AsAlone(f, before, programs, keys[1..], heard[1..], out, probed)
    requires first.out == AssignOne(f, before, programs, keys[0], heard[0]).out && |first.out| == 1
    requires first.probed == AssignOne(f, before, programs, keys[0], heard[0]).probed
    requires forall k :: k in first.probed ==> k == keys[0]
    ensures AsAlone(f, before, programs, keys, heard, first.out + out, first.probed + probed)
  {
    hide AssignOne;
    forall i | 0 <= i < |keys|
      ensures [(first.out + out)[i]] == AssignOne(f, before, programs, keys[i], heard[i]).out
      ensures keys[i] in first.probed + probed <==> keys[i] in AssignOne(f, before, programs, keys[i], heard[i]).probed
    {
      if i > 0 {
        assert keys[i] == keys[1..][i - 1] && heard[i] == heard[1..][i - 1];
      } else {
        assert keys[0] !in keys[1..];
      }
    }
  }

  /** With distinct keys the roles of a list are those each dongle would get alone. */
  lemma {:induction false} RolesOfDongles(f: Fixed, before: seq<DongleRole>, now: seq<DongleRole>, programs: Programs,
      keys: seq<string>, heard: seq<string>)
    requires |heard| == |keys| && Distinct(keys)
    requires forall i :: 0 <= i < |keys| ==> SameEntry(before, now, keys[i])
    ensures var r := AssignAll(f, now, programs, keys, heard); AsAlone(f, before, programs, keys, heard, r.out,
        r.probed)
    decreases |keys|
  {
    hide AssignOne, SameEntry, Abs;
    if keys != [] {
      var one := AssignOne(f, now, programs, keys[0], heard[0]);
      SameEntrySameRole(f, before, now, programs, keys[0], heard[0]);
      forall i | 0 <= i < |keys[1..]| ensures SameEntry(before, one.roles, keys[1..][i]) {
        OtherEntry(f, now, programs, keys[0], heard[0], keys[i + 1]);
        SameEntryTrans(before, now, one.roles, keys[i + 1]);
      }
      RolesOfDongles(f, before, one.roles, programs, keys[1..], heard[1..]);
      var rest := AssignAll(f, one.roles, programs, keys[1..], heard[1..]);
      ProbesOnlyItself(f, now, programs, keys[0], heard[0]);
      AsAloneCons(f, before, programs, keys, heard, one, rest.out, rest.probed);
    }
  }

  lemma SameEntryTrans(a: seq<DongleRole>, b: seq<DongleRole>, c: seq<DongleRole>, key: string)
    requires SameEntry(a, b, key) && SameEntry(b, c, key)
    ensures SameEntry(a, c, key)
  {
  }

  predicate SameEntry(a: seq<DongleRole>, b: seq<DongleRole>, key: string) {
    (key in Abs(a) <==> key in Abs(b)) && (key in Abs(a) ==> Abs(a)[key] == Abs(b)[key])
  }

  lemma SameEntrySameRole(f: Fixed, a: seq<DongleRole>, b: seq<DongleRole>, programs: Programs, key: string,
      heard: string)
    requires SameEntry(a, b, key)
    ensures var (x, y) := (AssignOne(f, a, programs, key, heard), AssignOne(f, b, programs, key, heard));
            x.out == y.out && x.probed == y.probed && |x.out| == 1
  {
    ListIsMap(a, key, "");
    ListIsMap(b, key, "");
  }

  lemma OtherEntry(f: Fixed, roles: seq<DongleRole>, programs: Programs, key: string, heard: string, other: string)
    requires key != other
    ensures SameEntry(roles, AssignOne(f, roles, programs, key, heard).roles, other)
  {
    ListIsMap(roles, key, AssignOne(f, roles, programs, key, heard).out[0].role);
  }

  lemma ProbesOnlyItself(f: Fixed, roles: seq<DongleRole>, programs: Programs, key: string, heard: string)
    ensures forall k :: k in AssignOne(f, roles, programs, key, heard).probed ==> k == key
  {
  }

  lemma EntryAt(roles: seq<DongleRole>, i: nat, serial: string, role: string)
    requires i < |roles|
    ensures var rest := Updated(roles[i..], serial, role);
            if roles[i].serial == serial
            then
              && roles[..i] + rest == roles[i := roles[i].(role := role)]
              && (roles[i].role == role ==> roles[..i] + rest == roles)
              && serial in Abs(roles[i..]) && Abs(roles[i..])[serial] == roles[i].role
            else
              && roles[..i] + rest == roles[..i + 1] + Updated(roles[i + 1..], serial, role)
              && (serial in Abs(roles[i..]) <==> serial in Abs(roles[i + 1..]))
              && (serial in Abs(roles[i..]) ==> Abs(roles[i..])[serial] == Abs(roles[i + 1..])[serial])
  {
  }

  lemma NoEntry(roles: seq<DongleRole>, serial: string, role: string)
    ensures var rest := roles[|roles|..];
            serial !in Abs(rest) && roles[..|roles|] + Updated(rest, serial, role) == roles + [DongleRole(serial, role)]
  {
  }

  /** The role-related part of the device configuration, and the decoder switch the settings bounce. */
  class DeviceConfig {
    var roles: seq<DongleRole>
    var localRoles: seq<DongleRole>
    var defaultRole: string
    var settings: Settings
    var enabled: bool

    constructor (roles: seq<DongleRole>, localRoles: seq<DongleRole>, defaultRole: string, settings: Settings)
      ensures this.roles == roles && this.localRoles == localRoles && this.defaultRole == defaultRole
      ensures this.settings == settings && enabled
    {
      this.roles, this.localRoles, this.defaultRole := roles, localRoles, defaultRole;
      this.settings, enabled := settings, true;
    }

    method RoleFor(serial: string) returns (role: string)
      ensures role == RoleOf(localRoles, roles, serial)
    {
      ghost var local, stored := localRoles, roles;
      var i := 0;
      while i < |localRoles|
        invariant 0 <= i <= |localRoles|
        invariant serial in Abs(local) <==> serial in Abs(local[i..])
        invariant serial in Abs(local) ==> Abs(local)[serial] == Abs(local[i..])[serial]
      {
        assert local[i..][1..] == local[i + 1..];
        if localRoles[i].serial == serial {
          return localRoles[i].role;
        }
        i := i + 1;
      }
      i := 0;
      while i < |roles|
        invariant 0 <= i <= |roles| && Lookup(stored, serial) == Lookup(stored[i..], serial)
      {
        assert stored[i..][1..] == stored[i + 1..];
        if roles[i].serial == serial {
          return roles[i].role;
        }
        i := i + 1;
      }
      return "";
    }

    method SetRole(serial: string, role: string) returns (changed: bool)
      modifies `roles
      ensures roles == Updated(old(roles), serial, role)
      ensures changed <==> !(serial in Abs(old(roles)) && Abs(old(roles))[serial] == role)
    {
      ghost var was := roles;
      hide Abs, Updated;
      var i := 0;
      assert was[0..] == was && was[..0] + Updated(was, serial, role) == Updated(was, serial, role);
      while i < |roles|
        invariant 0 <= i <= |roles| && roles == was
        invariant Updated(was, serial, role) == was[..i] + Updated(was[i..], serial, role)
        invariant serial in Abs(was) <==> serial in Abs(was[i..])
        invariant serial in Abs(was) ==> Abs(was)[serial] == Abs(was[i..])[serial]
      {
        EntryAt(was, i, serial, role);
        if roles[i].serial == serial {
          if roles[i].role == role {
            return false;
          }
          roles := roles[i := roles[i].(role := role)];
          return true;
        }
        i := i + 1;
      }
      NoEntry(was, serial, role);
      roles := roles + [DongleRole(serial, role)];
      return true;
    }

    /** A changed choice at installation supersedes the stored roles, but not the local ones. */
    method ApplyDefaultRole(role: string)
      modifies `roles, `defaultRole
      ensures if role in {ADSB, VDL2, "auto"} && old(defaultRole) != role
              then defaultRole == role && forall key :: RoleOf(localRoles, roles, key) == RoleOf(localRoles, [], key)
              else defaultRole == old(defaultRole) && roles == old(roles)
    {
      if (role == ADSB || role == VDL2 || role == "auto") && defaultRole != role {
        defaultRole := role;
        roles := [];
      }
    }

    /** Applies a pushed configuration, if any.  New settings bounce the decoders: off, then on. */
    method ApplyConfig(push: Option<Push>) returns (changed: bool)
      modifies `roles, `settings, `enabled
      requires push.Some? ==> DistinctSerials(push.value.roles)
      ensures roles == (if push.Some? then ApplyRoles(old(roles), push.value.roles) else old(roles))
      ensures settings == (if push.Some? then ApplySettings(old(settings), push.value) else old(settings))
      ensures changed <==> settings != old(settings) || Abs(roles) != Abs(old(roles))
      ensures enabled == (old(enabled) || changed)
    {
      changed := false;
      if push.None? {
        return;
      }
      var p := push.value;
      if p.feed.Some? && p.feed.value != "" && p.feed.value != settings.feed {
        settings := settings.(feed := p.feed.value);
        changed := true;
      }
      if p.vdl2Feed.Some? && p.vdl2Feed.value != "" && p.vdl2Feed.value != settings.vdl2Feed {
        settings := settings.(vdl2Feed := p.vdl2Feed.value);
        changed := true;
      }
      if p.gain.Some? && p.gain.value != "" && p.gain.value != settings.gain {
        settings := settings.(gain := p.gain.value);
        changed := true;
      }
      changed := ApplyPushedRoles(p.roles, changed);
      ChangeIff(old(roles), p.roles);
      if changed {
        enabled := false;
        enabled := true;
      }
    }

    method ApplyPushedRoles(pushed: seq<DongleRole>, already: bool) returns (changed: bool)
      requires DistinctSerials(pushed)
      modifies `roles
      ensures roles == ApplyRoles(old(roles), pushed)
      ensures changed == (already || RolesChange(old(roles), pushed))
    {
      ghost var was := roles;
      changed := already;
      var i := 0;
      while i < |pushed|
        invariant 0 <= i <= |pushed|
        invariant ApplyRoles(was, pushed) == ApplyRoles(roles, pushed[i..])
        invariant forall j :: i <= j < |pushed| ==>
                    (pushed[j].serial in Abs(roles) <==> pushed[j].serial in Abs(was))
                    && (pushed[j].serial in Abs(was) ==> Abs(roles)[pushed[j].serial] == Abs(was)[pushed[j].serial])
        invariant changed == (already || RolesChange(was, pushed[..i]))
      {
        ghost var mid := roles;
        assert pushed[i..][1..] == pushed[i + 1..];
        ListIsMap(mid, pushed[i].serial, pushed[i].role);
        RolesChangeStep(was, pushed, i);
        var updated := SetRole(pushed[i].serial, pushed[i].role);
        changed := changed || updated;
        i := i + 1;
      }
      assert pushed[..i] == pushed;
    }

    /** Decides and stores the role of one dongle; `heard` is what listening to it answers. */
    method AssignRole(programs: Programs, key: string, heard: string) returns (role: string, listened: bool)
      modifies `roles
      ensures AssignOne(Fixed(localRoles, defaultRole), old(roles), programs, key, heard) ==
              Assigned(roles, [Assignment(key, role)], if listened then [key] else [])
    {
      hide Abs, Updated, RoleOf;
      listened := false;
      role := RoleFor(key);
      if role != "" {
        // keep the configured role
      } else if defaultRole == ADSB && programs.adsb {
        role := ADSB;
      } else if defaultRole == VDL2 && programs.vdl2 {
        role := VDL2;
      } else if defaultRole == UAT && programs.uat {
        role := UAT;
      } else if programs.adsb && !programs.vdl2 {
        role := ADSB;
      } else if programs.vdl2 && !programs.adsb {
        role := VDL2;
      } else if programs.adsb && programs.vdl2 {
        role, listened := heard, true;
      } else {
        role := OFF;
      }
      if role != OFF {
        var _ := SetRole(key, role);
      }
    }

    /** Assigns a role to every dongle, listening only where nothing else decides. */
    method AssignRoles(programs: Programs, keys: seq<string>, heard: seq<string>)
      returns (out: seq<Assignment>, probed: seq<string>)
      requires |heard| == |keys|
      modifies `roles
      ensures Assigned(roles, out, probed) ==
          AssignAll(Fixed(localRoles, defaultRole), old(roles), programs, keys, heard)
    {
      ghost var f := Fixed(localRoles, defaultRole);
      ghost var all := AssignAll(f, roles, programs, keys, heard);
      PrependNothing(all);
      hide AssignOne, AssignAll, Prepend;
      out, probed := [], [];
      assert keys[0..] == keys && heard[0..] == heard;
      var i := 0;
      while i < |keys|
        invariant 0 <= i <= |keys|
        invariant all == Prepend(out, probed, AssignAll(f, roles, programs, keys[i..], heard[i..]))
      {
        AssignUnfolds(f, roles, programs, keys[i..], heard[i..]);
        assert keys[i..][1..] == keys[i + 1..] && heard[i..][1..] == heard[i + 1..];
        ghost var rest := AssignAll(f, AssignOne(f, roles, programs, keys[i], heard[i]).roles, programs,
            keys[i + 1..], heard[i + 1..]);
        var role, listened := AssignRole(programs, keys[i], heard[i]);
        PrependTwice(out, probed, [Assignment(keys[i], role)], if listened then [keys[i]] else [], rest);
        out := out + [Assignment(keys[i], role)];
        probed := probed + if listened then [keys[i]] else [];
        i := i + 1;
      }
      AssignUnfolds(f, roles, programs, keys[i..], heard[i..]);
      NothingLeft(out, probed, roles);
    }
  }

  function Prepend(out: seq<Assignment>, probed: seq<string>, r: Assigned): Assigned {
    Assigned(r.roles, out + r.out, probed + r.probed)
  }

  lemma PrependNothing(r: Assigned)
    ensures Prepend([], [], r) == r
  {
  }

  lemma PrependTwice(a: seq<Assignment>, p: seq<string>, b: seq<Assignment>, q: seq<string>, r: Assigned)
    ensures Prepend(a, p, Prepend(b, q, r)) == Prepend(a + b, p + q, r)
  {
  }

  lemma NothingLeft(out: seq<Assignment>, probed: seq<string>, roles: seq<DongleRole>)
    ensures Prepend(out, probed, Assigned(roles, [], [])) == Assigned(roles, out, probed)
  {
  }

  lemma AssignUnfolds(f: Fixed, roles: seq<DongleRole>, programs: Programs, keys: seq<string>, heard: seq<string>)
    requires |heard| == |keys|
    ensures AssignAll(f, roles, programs, keys, heard) ==
            if keys == [] then Assigned(roles, [], [])
            else
              var one := AssignOne(f, roles, programs, keys[0], heard[0]);
              Prepend(one.out, one.probed, AssignAll(f, one.roles, programs, keys[1..], heard[1..]))
  {
  }

  lemma RolesChangeStep(roles: seq<DongleRole>, pushed: seq<DongleRole>, i: nat)
    requires i < |pushed|
    ensures RolesChange(roles, pushed[..i + 1]) <==>
            || RolesChange(roles, pushed[..i])
            || !(pushed[i].serial in Abs(roles) && Abs(roles)[pushed[i].serial] == pushed[i].role)
  {
  }

  // ----- Probing happens at most once -----

  /** `AssignDuring` assigns one dongle while a push arrives between the read of its role and the store. */
  datatype Event =
    | Assign(programs: Programs, keys: seq<string>, heard: seq<string>)
    | AssignDuring(during: Programs, key: string, answer: string, pushed: seq<DongleRole>)
    | ServerPush(roles: seq<DongleRole>)

  /** The role is decided on the store as it was read, and stored into the one the push left. */
  function AssignInterrupted(f: Fixed, roles: seq<DongleRole>, programs: Programs, key: string, heard: string,
      pushed: seq<DongleRole>): Assigned
  {
    var one := AssignOne(f, roles, programs, key, heard);
    var role := if |one.out| > 0 then one.out[0].role else OFF;
    var meanwhile := ApplyRoles(roles, pushed);
    one.(roles := if role != OFF then Updated(meanwhile, key, role) else meanwhile)
  }

  /**
   A role pushed for a dongle while its role is being decided survives exactly if it is
   the decided one or the dongle is off; those of all other dongles do.
   */
  lemma PushDuringAssignmentIff(f: Fixed, roles: seq<DongleRole>, programs: Programs, key: string, heard: string,
      pushed: seq<DongleRole>)
    requires DistinctSerials(pushed)
    ensures var r := AssignInterrupted(f, roles, programs, key, heard, pushed);
            && |r.out| == 1
            && (key in Abs(pushed) ==>
                  && key in Abs(r.roles)
                  && (Abs(r.roles)[key] == Abs(pushed)[key] <==>
                        r.out[0].role == OFF || r.out[0].role == Abs(pushed)[key]))
            && (forall k :: k in Abs(pushed) && k != key ==> k in Abs(r.roles) && Abs(r.roles)[k] == Abs(pushed)[k])
  {
    var one := AssignOne(f, roles, programs, key, heard);
    ApplyRolesIsOverride(roles, pushed);
    ListIsMap(ApplyRoles(roles, pushed), key, one.out[0].role);
  }

  predicate ValidEvent(e: Event) {
    match e
    case Assign(_, keys, heard) => |heard| == |keys| && forall i :: 0 <= i < |heard| ==> IsProbeResult(heard[i])
    case AssignDuring(_, _, answer, pushed) => IsProbeResult(answer) && DistinctSerials(pushed)
    case ServerPush(roles) => DistinctSerials(roles)
  }

  function After(f: Fixed, roles: seq<DongleRole>, e: Event): (seq<DongleRole>, seq<string>)
    requires ValidEvent(e)
  {
    match e
    case Assign(programs, keys, heard) => var r := AssignAll(f, roles, programs, keys, heard); (r.roles, r.probed)
    case AssignDuring(programs, key, answer, pushed) =>
      var r := AssignInterrupted(f, roles, programs, key, answer, pushed); (r.roles, r.probed)
    case ServerPush(pushed) => (ApplyRoles(roles, pushed), [])
  }

  /** Every key probed over a run of events, in order. */
  function Probed(f: Fixed, roles: seq<DongleRole>, events: seq<Event>): seq<string>
    requires forall e :: e in events ==> ValidEvent(e)
    decreases |events|
  {
    if events == [] then []
    else After(f, roles, events[0]).1 + Probed(f, After(f, roles, events[0]).0, events[1..])
  }

  predicate NoEmptyRole(roles: seq<DongleRole>) {
    forall serial :: serial in Abs(roles) ==> Abs(roles)[serial] != ""
  }

  /** Each key in `probed` was unknown before, is known after, and occurs once; known keys stay known. */
  predicate ProbesFresh(before: seq<DongleRole>, probed: seq<string>, after: seq<DongleRole>) {
    && Distinct(probed)
    && (forall k :: k in probed ==> k !in Abs(before) && k in Abs(after))
    && Abs(before).Keys <= Abs(after).Keys
    && NoEmptyRole(after)
  }

  lemma ProbesCompose(a: seq<DongleRole>, p: seq<string>, b: seq<DongleRole>, q: seq<string>, c: seq<DongleRole>)
    requires ProbesFresh(a, p, b) && ProbesFresh(b, q, c)
    ensures ProbesFresh(a, p + q, c)
  {
    hide Abs, NoEmptyRole;
    forall i, j | 0 <= i < j < |p + q| ensures (p + q)[i] != (p + q)[j] {
      if i < |p| <= j {
        assert p[i] in p && q[j - |p|] in q;
      }
    }
  }

  lemma {:induction false} AssignProbesFresh(f: Fixed, roles: seq<DongleRole>, programs: Programs, keys: seq<string>,
      heard: seq<string>)
    requires |heard| == |keys| && forall i :: 0 <= i < |heard| ==> IsProbeResult(heard[i])
    requires NoEmptyRole(f.local) && NoEmptyRole(roles)
    ensures var r := AssignAll(f, roles, programs, keys, heard); ProbesFresh(roles, r.probed, r.roles)
    decreases |keys|
  {
    if keys != [] {
      var one := AssignOne(f, roles, programs, keys[0], heard[0]);
      ListIsMap(roles, keys[0], one.out[0].role);
      assert ProbesFresh(roles, one.probed, one.roles);
      AssignProbesFresh(f, one.roles, programs, keys[1..], heard[1..]);
      var rest := AssignAll(f, one.roles, programs, keys[1..], heard[1..]);
      ProbesCompose(roles, one.probed, one.roles, rest.probed, rest.roles);
    }
  }

  ghost predicate NoEmptyPush(e: Event) {
    match e
    case Assign(_, _, _) => true
    case AssignDuring(_, _, _, pushed) => NoEmptyRole(pushed)
    case ServerPush(roles) => NoEmptyRole(roles)
  }

  lemma InterruptedProbesFresh(f: Fixed, roles: seq<DongleRole>, programs: Programs, key: string, heard: string,
      pushed: seq<DongleRole>)
    requires IsProbeResult(heard) && DistinctSerials(pushed)
    requires NoEmptyRole(f.local) && NoEmptyRole(roles) && NoEmptyRole(pushed)
    ensures var r := AssignInterrupted(f, roles, programs, key, heard, pushed); ProbesFresh(roles, r.probed, r.roles)
  {
    var one := AssignOne(f, roles, programs, key, heard);
    ApplyRolesIsOverride(roles, pushed);
    ListIsMap(roles, key, "");
    ListIsMap(ApplyRoles(roles, pushed), key, one.out[0].role);
  }

  /**
   As long as no stored, local or pushed role is the empty string, no key is ever probed
   twice, even if pushes arrive while dongles are listened to.
   */
  lemma {:induction false} ProbedAtMostOnce(f: Fixed, roles: seq<DongleRole>, events: seq<Event>)
    requires forall e :: e in events ==> ValidEvent(e) && NoEmptyPush(e)
    requires NoEmptyRole(f.local) && NoEmptyRole(roles)
    ensures Distinct(Probed(f, roles, events))
    ensures forall k :: k in Probed(f, roles, events) ==> k !in Abs(roles)
    decreases |events|
  {
    if events != [] {
      var e := events[0];
      assert e in events;
      var (next, probed) := After(f, roles, e);
      match e {
        case Assign(programs, keys, heard) => AssignProbesFresh(f, roles, programs, keys, heard);
        case AssignDuring(programs, key, answer, pushed) =>
          InterruptedProbesFresh(f, roles, programs, key, answer, pushed);
        case ServerPush(pushed) => ApplyRolesIsOverride(roles, pushed);
      }
      assert ProbesFresh(roles, probed, next);
      ProbedAtMostOnce(f, next, events[1..]);
      var later := Probed(f, next, events[1..]);
      forall i, j | 0 <= i < j < |probed + later| ensures (probed + later)[i] != (probed + later)[j] {
        if i < |probed| <= j {
          assert probed[i] in probed && later[j - |probed|] in later;
        }
      }
    }
  }

  /** An empty role pushed by the server makes the next assignment listen again. */
  lemma EmptyRoleProbesAgain() returns (events: seq<Event>)
    ensures forall e :: e in events ==> ValidEvent(e)
    ensures Probed(Fixed([], "auto"), [], events) == ["1-2", "1-2"]
  {
    var listen := Assign(Programs(true, true, false), ["1-2"], [ADSB]);
    var erase := ServerPush([DongleRole("1-2", "")]);
    events := [listen, erase, listen];
    var f := Fixed([], "auto");
    AssignSingle(f, [], listen.programs, "1-2", ADSB);
    AssignSingle(f, [DongleRole("1-2", "")], listen.programs, "1-2", ADSB);
    assert ApplyRoles([DongleRole("1-2", ADSB)], erase.roles) == [DongleRole("1-2", "")] by {
      assert erase.roles[1..] == [];
    }
    assert events[1..] == [erase, listen] && events[1..][1..] == [listen] && [listen][1..] == [];
    assert Probed(f, [DongleRole("1-2", "")], [listen]) == ["1-2"];
    assert Probed(f, [DongleRole("1-2", ADSB)], [erase, listen]) == ["1-2"];
  }

  /**
   A dongle that was probed is probed again after a push exactly if the push made its
   role empty, or a local entry already has it empty.
   */
  lemma ProbedAgainIff(f: Fixed, roles: seq<DongleRole>, programs: Programs, key: string, heard: string,
      pushed: seq<DongleRole>, later: string)
    requires IsProbeResult(heard) && DistinctSerials(pushed) &&
        AssignOne(f, roles, programs, key, heard).probed == [key]
    ensures var again := AssignOne(f, ApplyRoles(AssignOne(f, roles, programs, key, heard).roles, pushed), programs,
        key, later);
            again.probed == [key] <==> key in Abs(f.local) || (key in Abs(pushed) && Abs(pushed)[key] == "")
  {
    var first := AssignOne(f, roles, programs, key, heard);
    ListIsMap(roles, key, heard);
    ApplyRolesIsOverride(first.roles, pushed);
    ListIsMap(ApplyRoles(first.roles, pushed), key, "");
  }

  lemma AssignSingle(f: Fixed, roles: seq<DongleRole>, programs: Programs, key: string, heard: string)
    ensures AssignAll(f, roles, programs, [key], [heard]) == AssignOne(f, roles, programs, key, heard)
  {
  }

  // ----- The roles the supervisor is given -----

  ghost predicate AllRoles(roles: seq<DongleRole>, ok: string -> bool) {
    forall serial :: serial in Abs(roles) ==> ok(Abs(roles)[serial])
  }

  lemma AssignOneKeeps(ok: string -> bool, f: Fixed, roles: seq<DongleRole>, programs: Programs, key: string,
      heard: string)
    requires ok(ADSB) && ok(UAT) && ok(VDL2) && ok(OFF) && IsProbeResult(heard)
    requires AllRoles(f.local, ok) && AllRoles(roles, ok)
    ensures var one := AssignOne(f, roles, programs, key, heard);
            |one.out| == 1 && one.out[0].key == key && ok(one.out[0].role) && AllRoles(one.roles, ok)
  {
    ListIsMap(roles, key, AssignOne(f, roles, programs, key, heard).out[0].role);
  }

  /** One assignment per dongle, in order, with a role of any kind that covers the four and all configured ones. */
  lemma {:induction false} AssignmentsKeep(ok: string -> bool, f: Fixed, roles: seq<DongleRole>, programs: Programs,
                                           keys: seq<string>, heard: seq<string>)
    requires ok(ADSB) && ok(UAT) && ok(VDL2) && ok(OFF)
    requires |heard| == |keys| && forall i :: 0 <= i < |heard| ==> IsProbeResult(heard[i])
    requires AllRoles(f.local, ok) && AllRoles(roles, ok)
    ensures var r := AssignAll(f, roles, programs, keys, heard);
            && |r.out| == |keys| && AllRoles(r.roles, ok)
            && forall i :: 0 <= i < |keys| ==> r.out[i].key == keys[i] && ok(r.out[i].role)
    decreases |keys|
  {
    if keys != [] {
      AssignOneKeeps(ok, f, roles, programs, keys[0], heard[0]);
      hide AllRoles, AssignOne;
      var one := AssignOne(f, roles, programs, keys[0], heard[0]);
      AssignmentsKeep(ok, f, one.roles, programs, keys[1..], heard[1..]);
    }
  }

  /** Every dongle gets one of the four roles if only those are configured. */
  lemma AssignmentsAreKnown(f: Fixed, roles: seq<DongleRole>, programs: Programs, keys: seq<string>, heard: seq<string>)
    requires |heard| == |keys| && forall i :: 0 <= i < |heard| ==> IsProbeResult(heard[i])
    requires AllRoles(f.local, IsRole) && AllRoles(roles, IsRole)
    ensures var r := AssignAll(f, roles, programs, keys, heard);
            && |r.out| == |keys| && AllRoles(r.roles, IsRole)
            && forall i :: 0 <= i < |keys| ==> r.out[i].key == keys[i] && IsRole(r.out[i].role)
  {
    AssignmentsKeep(IsRole, f, roles, programs, keys, heard);
  }

  // ----- Dongles nobody configured -----

  /** A dongle with this role can be run with the installed programs. */
  predicate Runnable(programs: Programs, role: string) {
    || role == OFF
    || (role == ADSB && programs.adsb) || (role == VDL2 && programs.vdl2) || (role == UAT && programs.uat)
  }

  /** What this pass has stored so far for dongles that had no role before it. */
  ghost predicate StoredRunnable(local: seq<DongleRole>, before: seq<DongleRole>, now: seq<DongleRole>,
      programs: Programs) {
    forall key :: RoleOf(local, before, key) == "" ==>
        RoleOf(local, now, key) == "" || Runnable(programs, RoleOf(local, now, key))
  }

  lemma OneIsRunnable(f: Fixed, before: seq<DongleRole>, now: seq<DongleRole>, programs: Programs, key: string,
      heard: string)
    requires IsProbeResult(heard) && StoredRunnable(f.local, before, now, programs)
    ensures var one := AssignOne(f, now, programs, key, heard);
            && StoredRunnable(f.local, before, one.roles, programs) && |one.out| == 1
            && (RoleOf(f.local, before, key) == "" ==> Runnable(programs, one.out[0].role))
  {
    var one := AssignOne(f, now, programs, key, heard);
    forall k | RoleOf(f.local, before, k) == ""
      ensures RoleOf(f.local, one.roles, k) == "" || Runnable(programs, RoleOf(f.local, one.roles, k))
    {
      ListIsMap(now, key, one.out[0].role);
      ListIsMap(now, k, "");
      ListIsMap(one.roles, k, "");
    }
  }

  /** A dongle nobody configured only gets a role whose decoder is installed, or is off. */
  lemma {:induction false} UnconfiguredAreRunnable(f: Fixed, before: seq<DongleRole>, now: seq<DongleRole>,
      programs: Programs, keys: seq<string>, heard: seq<string>)
    requires |heard| == |keys| && forall i :: 0 <= i < |heard| ==> IsProbeResult(heard[i])
    requires now == before || StoredRunnable(f.local, before, now, programs)
    ensures var out := AssignAll(f, now, programs, keys, heard).out;
            |out| == |keys| && forall i :: 0 <= i < |keys| && RoleOf(f.local, before, keys[i]) == "" ==>
                Runnable(programs, out[i].role)
    decreases |keys|
  {
    if keys != [] {
      OneIsRunnable(f, before, now, programs, keys[0], heard[0]);
      hide StoredRunnable, AssignOne, RoleOf, Runnable;
      UnconfiguredAreRunnable(f, before, AssignOne(f, now, programs, keys[0], heard[0]).roles, programs, keys[1..],
          heard[1..]);
    }
  }
}
