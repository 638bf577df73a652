/** The ports given to an ordered list of receivers, and their identities (agent/decoders.go). */
module PortPlan {
  import opened Decimal
  import opened Enumeration
  import opened Roles

  datatype RoleAssignment = RoleAssignment(dongle: Dongle, role: string)

  datatype Ports = Ports(beast: nat, sbs: nat, vdl2: nat)

  /** One entry of the published receiver inventory. */
  datatype Entry = Entry(dongle: Dongle, role: string, ports: Ports)

  function PortsFor(role: string, slot: nat): Ports {
    if role == ADSB then Ports(30005 + slot * 100, 30003 + slot * 100, 0)
    else if role == VDL2 then Ports(0, 0, 5553 + slot)
    else Ports(0, 0, 0)
  }

  /** How many of the first `n` assignments have a role. */
  function Count(a: seq<RoleAssignment>, n: nat, role: string): nat
    requires n <= |a|
  {
    if n == 0 then 0 else Count(a, n - 1, role) + if a[n - 1].role == role then 1 else 0
  }

  /** The slot of assignment `i` among those with its role. */
  function Slot(a: seq<RoleAssignment>, i: nat): nat
    requires i < |a|
  {
    Count(a, i, a[i].role)
  }

  function EntryAt(a: seq<RoleAssignment>, i: nat): Entry
    requires i < |a|
  {
    Entry(a[i].dongle, a[i].role, PortsFor(a[i].role, Slot(a, i)))
  }

  /** The inventory for a list of assignments. */
  function Plan(a: seq<RoleAssignment>): (p: seq<Entry>) {
    seq(|a|, i requires 0 <= i < |a| => EntryAt(a, i))
  }

  function EntryKey(e: Entry): string {
    Key(e.dongle)
  }

  // ----- Identities -----

  function DigitChar(d: nat): char
    requires d < 10
  {
    '0' + d as char
  }

  function Dec(n: nat): string {
    var ds := Digits(n);
    seq(|ds|, i requires 0 <= i < |ds| => DigitChar(ds[i]))
  }

  /** What tells two devices on the same port apart. */
  function Identity(d: Dongle): string {
    d.serial + "|" + d.product + "|" + Dec(d.index)
  }

  lemma DecInjective(n: nat, m: nat)
    requires Dec(n) == Dec(m)
    ensures n == m
  {
    var a, b := Digits(n), Digits(m);
    assert |a| == |Dec(n)| == |b|;
    forall i | 0 <= i < |a| ensures a[i] == b[i] {
      assert Dec(n)[i] == DigitChar(a[i]) && Dec(m)[i] == DigitChar(b[i]);
      assert a[i] == DigitChar(a[i]) as int - '0' as int && b[i] == DigitChar(b[i]) as int - '0' as int;
    }
    assert a == b;
    ValueOfDigits(n);
    ValueOfDigits(m);
  }

  lemma BarInLonger(a: string, x: string, b: string, y: string)
    requires a + "|" + x == b + "|" + y && |x| < |y|
    ensures '|' in y
  {
    assert (a + "|" + x)[|a|] == '|' && (b + "|" + y)[|a|] == y[|a| - |b| - 1];
  }

  lemma AfterLastBar(a: string, x: string, b: string, y: string)
    requires a + "|" + x == b + "|" + y && '|' !in x && '|' !in y
    ensures x == y
  {
    if |x| < |y| {
      BarInLonger(a, x, b, y);
    } else if |y| < |x| {
      BarInLonger(b, y, a, x);
    } else {
      assert x == (a + "|" + x)[|a| + 1..] && y == (b + "|" + y)[|b| + 1..];
    }
  }

  /** Two devices at different indices never share an identity, whatever their strings contain. */
  lemma IdentityHoldsIndex(d: Dongle, e: Dongle)
    requires Identity(d) == Identity(e)
    ensures d.index == e.index
  {
    AfterLastBar(d.serial + "|" + d.product, Dec(d.index), e.serial + "|" + e.product, Dec(e.index));
    DecInjective(d.index, e.index);
  }

  lemma SuffixLength(a: string, x: string, b: string, y: string)
    requires a + "|" + x == b + "|" + y && x == y
    ensures a == b
  {
    assert a == (a + "|" + x)[..|a|] && b == (b + "|" + y)[..|b|];
  }

  /** Exactly what two devices with one identity share: the index, and serial and product joined by a bar. */
  lemma IdentityIff(d: Dongle, e: Dongle)
    ensures Identity(d) == Identity(e) <==>
        d.index == e.index && d.serial + "|" + d.product == e.serial + "|" + e.product
  {
    if Identity(d) == Identity(e) {
      IdentityHoldsIndex(d, e);
      SuffixLength(d.serial + "|" + d.product, Dec(d.index), e.serial + "|" + e.product, Dec(e.index));
    }
  }

  /** The identity of a device with a one-digit index, written out. */
  lemma IdentitySpelled(d: Dongle)
    requires d.index == 3
    ensures Identity(d) == d.serial + "|" + d.product + "|3"
  {
    assert Digits(3) == [3];
    assert Dec(3) == "3";
  }

  // ----- Slots -----

  lemma {:induction false} CountGrows(a: seq<RoleAssignment>, i: nat, j: nat, role: string)
    requires i <= j <= |a|
    ensures Count(a, i, role) <= Count(a, j, role)
    ensures i < j && a[i].role == role ==> Count(a, i, role) < Count(a, j, role)
    decreases j - i
  {
    if i < j {
      CountGrows(a, i + 1, j, role);
    }
  }

  /** Two assignments with the same role have different slots. */
  lemma SlotsDiffer(a: seq<RoleAssignment>, i: nat, j: nat)
    requires i < j < |a| && a[i].role == a[j].role
    ensures Slot(a, i) < Slot(a, j) < Count(a, |a|, a[i].role)
  {
    CountGrows(a, i, j, a[i].role);
    CountGrows(a, j, |a|, a[i].role);
  }

  lemma SlotBound(a: seq<RoleAssignment>, i: nat)
    requires i < |a|
    ensures Slot(a, i) < Count(a, |a|, a[i].role)
  {
    CountGrows(a, i, |a|, a[i].role);
  }

  lemma {:induction false} SlotTaken(a: seq<RoleAssignment>, n: nat, role: string, slot: nat)
    requires n <= |a| && slot < Count(a, n, role)
    ensures exists i :: 0 <= i < n && a[i].role == role && Slot(a, i) == slot
  {
    if slot < Count(a, n - 1, role) {
      SlotTaken(a, n - 1, role, slot);
    } else {
      assert a[n - 1].role == role && Slot(a, n - 1) == slot;
    }
  }

  // ----- Which ports a receiver gets -----

  ghost function Earlier(a: seq<RoleAssignment>, i: nat, role: string): set<nat>
    requires i <= |a|
  {
    set j: nat | j < i && a[j].role == role
  }

  /** How many assignments before `i` have a role. */
  ghost function Before(a: seq<RoleAssignment>, i: nat, role: string): nat
    requires i <= |a|
  {
    |Earlier(a, i, role)|
  }

  lemma EarlierGrows(a: seq<RoleAssignment>, n: nat, role: string)
    requires 0 < n <= |a|
    ensures Earlier(a, n, role) == Earlier(a, n - 1, role) + if a[n - 1].role == role then {n - 1} else {}
  {
  }

  lemma {:induction false} CountIsCardinality(a: seq<RoleAssignment>, n: nat, role: string)
    requires n <= |a|
    ensures Count(a, n, role) == Before(a, n, role)
  {
    if n > 0 {
      CountIsCardinality(a, n - 1, role);
      EarlierGrows(a, n, role);
      assert n - 1 !in Earlier(a, n - 1, role);
    } else {
      assert Earlier(a, n, role) == {};
    }
  }

  /**
   The k-th ADS-B receiver gets 30005 + 100 k and 30003 + 100 k, the k-th VDL2 one 5553 + k, counted from 0;
   others none.
   */
  lemma PortsOfReceiver(a: seq<RoleAssignment>, i: nat)
    requires i < |a|
    ensures |Plan(a)| == |a| && Plan(a)[i].dongle == a[i].dongle && Plan(a)[i].role == a[i].role
    ensures var (k, ports) := (Before(a, i, a[i].role), Plan(a)[i].ports);
            if a[i].role == "adsb" then ports.beast == 30005 + 100 * k && ports.sbs == 30003 + 100 * k &&
                ports.vdl2 == 0
            else if a[i].role == "vdl2" then ports.vdl2 == 5553 + k && ports.beast == ports.sbs == 0
            else ports.beast == ports.sbs == ports.vdl2 == 0
  {
    CountIsCardinality(a, i, a[i].role);
  }

  // ----- Port disjointness -----

  /** The port the ADS-B probe listens on. */
  const PROBE_PORT: nat := 31005

  function PortSet(e: Entry): set<nat> {
    if e.role == ADSB then {e.ports.beast, e.ports.sbs} else if e.role == VDL2 then {e.ports.vdl2} else {}
  }

  /** No two receivers share a port, and none uses the probe port. */
  ghost predicate Disjoint(p: seq<Entry>) {
    && (forall i, j :: 0 <= i < j < |p| ==> PortSet(p[i]) !! PortSet(p[j]))
    && (forall i :: 0 <= i < |p| ==> PROBE_PORT !in PortSet(p[i]))
  }

  /** How many receivers of each kind the port plan has room for. */
  predicate Fits(adsb: nat, vdl2: nat) {
    adsb <= 10 && vdl2 <= if adsb == 0 then 25452 else 24450
  }

  /** ADS-B receivers never collide with each other, however many there are. */
  lemma AdsbNeverCollide(a: seq<RoleAssignment>, i: nat, j: nat)
    requires i < j < |a| && a[i].role == a[j].role == ADSB
    ensures PortSet(Plan(a)[i]) !! PortSet(Plan(a)[j]) && |PortSet(Plan(a)[i])| == 2
  {
    SlotsDiffer(a, i, j);
    assert Plan(a)[i].ports.beast !in {Plan(a)[i].ports.sbs};
  }

  lemma {:induction false} DisjointIfFits(a: seq<RoleAssignment>)
    requires Fits(Count(a, |a|, ADSB), Count(a, |a|, VDL2))
    ensures Disjoint(Plan(a))
  {
    var p := Plan(a);
    forall i | 0 <= i < |p| ensures PROBE_PORT !in PortSet(p[i]) {
      SlotBound(a, i);
    }
    forall i, j | 0 <= i < j < |p| ensures PortSet(p[i]) !! PortSet(p[j]) {
      SlotBound(a, i);
      SlotBound(a, j);
      if a[i].role == a[j].role {
        SlotsDiffer(a, i, j);
      }
    }
  }

  /** Some receiver gets the slot, and so the ports that go with it. */
  lemma SlotServed(a: seq<RoleAssignment>, role: string, slot: nat) returns (i: nat)
    requires slot < Count(a, |a|, role)
    ensures i < |a| == |Plan(a)| && Plan(a)[i] == Entry(a[i].dongle, role, PortsFor(role, slot))
  {
    SlotTaken(a, |a|, role, slot);
    i :| 0 <= i < |a| && a[i].role == role && Slot(a, i) == slot;
  }

  lemma {:induction false} CollidesUnlessFits(a: seq<RoleAssignment>)
    requires !Fits(Count(a, |a|, ADSB), Count(a, |a|, VDL2))
    ensures !Disjoint(Plan(a))
  {
    hide Count, Slot, EntryAt, Plan;
    var adsb, vdl2 := Count(a, |a|, ADSB), Count(a, |a|, VDL2);
    if adsb > 10 {
      var i := SlotServed(a, ADSB, 10);
      assert PROBE_PORT in PortSet(Plan(a)[i]);
    } else if adsb > 0 {
      var i := SlotServed(a, ADSB, 0);
      var j := SlotServed(a, VDL2, 24450);
      assert 30003 in PortSet(Plan(a)[i]) && 30003 in PortSet(Plan(a)[j]);
      if i < j {
        assert !(PortSet(Plan(a)[i]) !! PortSet(Plan(a)[j]));
      } else {
        assert j < i && !(PortSet(Plan(a)[j]) !! PortSet(Plan(a)[i]));
      }
    } else {
      var i := SlotServed(a, VDL2, 25452);
      assert PROBE_PORT in PortSet(Plan(a)[i]);
    }
  }

  /** All ports differ and avoid the probe port exactly up to the stated numbers of receivers. */
  lemma DisjointIff(a: seq<RoleAssignment>)
    ensures Disjoint(Plan(a)) <==> Fits(Count(a, |a|, ADSB), Count(a, |a|, VDL2))
  {
    hide Disjoint, Fits;
    if Fits(Count(a, |a|, ADSB), Count(a, |a|, VDL2)) {
      DisjointIfFits(a);
    } else {
      CollidesUnlessFits(a);
    }
  }
}
