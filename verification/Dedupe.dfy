/** De-duplication of colliding dongle serials (agent/decoders.go). */
module Dedupe {
  import opened Common
  import opened Eeprom
  import opened EepromChip
  import opened SerialNames

  /** Names are tried from `Name(1)` up to but not including `Name(NAME_LIMIT)`. */
  const NAME_LIMIT: nat := 100000

  /** Every name the search can return; entry 0 is its last resort. */
  function AllNames(): seq<seq<byte>> {
    seq(NAME_LIMIT, i requires 0 <= i < NAME_LIMIT => Name(i))
  }

  /** The facts about the generated names that the pass relies on. */
  lemma AllNamesDiffer()
    ensures Distinct(AllNames()) && |AllNames()| == NAME_LIMIT
    ensures forall i :: 0 <= i < NAME_LIMIT ==> AllNames()[i] == Name(i)
  {
    forall i, j | 0 <= i < j < NAME_LIMIT ensures AllNames()[i] != AllNames()[j] {
      NameInjective(i, j);
    }
  }

  /** The part of an enumerated dongle that the de-duplicator reads. */
  datatype Device = Device(index: nat, serial: seq<byte>)

  // ----- The freshness search -----

  function UniqueFrom(names: seq<seq<byte>>, taken: set<seq<byte>>, i: nat): seq<byte>
    requires |names| > 0
    decreases |names| - i
  {
    if i >= |names| then names[0]
    else if names[i] !in taken then names[i]
    else UniqueFrom(names, taken, i + 1)
  }

  function Unique(names: seq<seq<byte>>, taken: set<seq<byte>>): seq<byte>
    requires |names| > 0
  {
    UniqueFrom(names, taken, 1)
  }

  method UniqueSerial(taken: set<seq<byte>>) returns (r: seq<byte>)
    ensures r == Unique(AllNames(), taken)
  {
    hide Name;
    for i := 1 to NAME_LIMIT
      invariant Unique(AllNames(), taken) == UniqueFrom(AllNames(), taken, i)
    {
      var s := Name(i);
      if s !in taken {
        return s;
      }
    }
    return Name(0);
  }

  lemma {:induction false} UniqueFromSearches(names: seq<seq<byte>>, taken: set<seq<byte>>, i: nat)
    requires 0 < |names| && i <= |names|
    ensures || (exists k :: i <= k < |names| && UniqueFrom(names, taken, i) == names[k] && names[k] !in taken
                            && forall j :: i <= j < k ==> names[j] in taken)
            || (UniqueFrom(names, taken, i) == names[0] && forall j :: i <= j < |names| ==> names[j] in taken)
    decreases |names| - i
  {
    if i < |names| && names[i] in taken {
      UniqueFromSearches(names, taken, i + 1);
    }
  }

  /** The search returns the least fresh name after entry 0, and a taken one exactly when all are taken. */
  lemma UniqueIsLeastFresh(names: seq<seq<byte>>, taken: set<seq<byte>>)
    requires |names| > 0
    ensures Unique(names, taken) in taken <==> forall j :: 0 <= j < |names| ==> names[j] in taken
    ensures forall k :: 1 <= k < |names| && names[k] !in taken && (forall j :: 1 <= j < k ==> names[j] in taken)
              ==> Unique(names, taken) == names[k]
  {
    UniqueFromSearches(names, taken, 1);
  }

  lemma {:induction false} DistinctAreMany(names: seq<seq<byte>>)
    requires Distinct(names)
    ensures |set s | s in names| == |names|
  {
    if names == [] {
      assert (set s | s in names) == {};
    } else {
      var n := |names| - 1;
      DistinctAreMany(names[..n]);
      assert (set s | s in names) == (set s | s in names[..n]) + {names[n]};
    }
  }

  lemma SubsetIsSmaller<T>(a: set<T>, b: set<T>)
    requires a <= b
    ensures |a| <= |b|
  {
    assert b == a + (b - a);
  }

  /** With fewer serials taken than there are names, the search always finds a fresh one. */
  lemma Pigeonhole(names: seq<seq<byte>>, taken: set<seq<byte>>)
    requires Distinct(names) && |taken| < |names|
    ensures Unique(names, taken) !in taken
  {
    UniqueIsLeastFresh(names, taken);
    if forall j :: 0 <= j < |names| ==> names[j] in taken {
      DistinctAreMany(names);
      SubsetIsSmaller((set s | s in names), taken);
      assert false;
    }
  }

  // ----- The de-duplication pass -----

  datatype Outcome = Kept | Rewritten(name: seq<byte>) | StillDuplicate

  /** The serial the pass marks as seen for a dongle; it takes a failed write to have left the old one. */
  function Marked(d: Device, o: Outcome): seq<byte> {
    if o.Rewritten? then o.name else d.serial
  }

  /** The serials marked as seen after the first dongles of the list. */
  ghost function Taken(ds: seq<Device>, os: seq<Outcome>): set<seq<byte>>
    requires |os| <= |ds|
  {
    set i | 0 <= i < |os| :: Marked(ds[i], os[i])
  }

  /** A dongle is kept when its serial is still free; otherwise the least fresh name is written, or the write fails. */
  ghost predicate Decided(names: seq<seq<byte>>, ds: seq<Device>, os: seq<Outcome>, i: nat)
    requires i < |os| <= |ds| && |names| > 0
  {
    var taken := Taken(ds, os[..i]);
    if ds[i].serial !in taken then os[i] == Kept
    else os[i] == StillDuplicate || os[i] == Rewritten(Unique(names, taken))
  }

  ghost predicate IsPass(names: seq<seq<byte>>, ds: seq<Device>, os: seq<Outcome>) {
    0 < |names| && |os| <= |ds| && forall i :: 0 <= i < |os| ==> Decided(names, ds, os, i)
  }

  /** The devices on the bus: one chip for each index, none shared. */
  ghost predicate ValidBus(ds: seq<Device>, chips: seq<Chip>) {
    && (forall c :: c in chips ==> c.Valid())
    && (forall i, j :: 0 <= i < j < |chips| ==> chips[i].mem != chips[j].mem)
    && (forall i :: 0 <= i < |ds| ==> ds[i].index < |chips|)
    && (forall i, j :: 0 <= i < j < |ds| ==> ds[i].index != ds[j].index)
  }

  /** What the pass did to the chip of one dongle, given its image before (`was`) and after. */
  predicate ChipEffect(o: Outcome, wanted: seq<byte>, was: seq<byte>, now: seq<byte>, io: Io) {
    match o
    case Kept => now == was
    case Rewritten(name) => (now, None) == WriteSerial(was, name, io)
    case StillDuplicate => now == WriteSerial(was, wanted, io).0 && WriteSerial(was, wanted, io).1.Some?
  }

  ghost function Images(chips: seq<Chip>): (r: seq<seq<byte>>)
    reads set c | c in chips :: c.mem
    ensures |r| == |chips|
  {
    seq(|chips|, i requires 0 <= i < |chips| reads set c | c in chips :: c.mem => chips[i].mem[..])
  }

  /** What the first `|os|` steps of the pass did to the images on the bus. */
  ghost predicate PassEffect(names: seq<seq<byte>>, ds: seq<Device>, os: seq<Outcome>, io: seq<Io>,
      was: seq<seq<byte>>, now: seq<seq<byte>>)
    requires |os| <= |ds| == |io| && |was| == |now| && |names| > 0 && forall i :: 0 <= i < |ds| ==> ds[i].index < |was|
  {
    && (forall i :: 0 <= i < |os| ==>
          ChipEffect(os[i], Unique(names, Taken(ds, os[..i])), was[ds[i].index], now[ds[i].index], io[i]))
    && (forall k :: 0 <= k < |was| && (forall i :: 0 <= i < |os| ==> ds[i].index != k) ==> now[k] == was[k])
  }

  method DedupeSerials(ds: seq<Device>, chips: seq<Chip>, io: seq<Io>) returns (os: seq<Outcome>, changed: bool)
    requires ValidBus(ds, chips) && |io| == |ds|
    modifies set c | c in chips :: c.mem
    ensures |os| == |ds| && IsPass(AllNames(), ds, os) &&
        PassEffect(AllNames(), ds, os, io, old(Images(chips)), Images(chips))
    ensures changed <==> exists i :: 0 <= i < |os| && os[i].Rewritten?
  {
    hide Unique, AllNames, WriteSerial;
    var seen: set<seq<byte>> := {};
    changed := false;
    os := [];
    while |os| < |ds|
      invariant |os| <= |ds| && IsPass(AllNames(), ds, os)
      invariant seen == Taken(ds, os)
      invariant changed <==> exists j :: 0 <= j < |os| && os[j].Rewritten?
      invariant PassEffect(AllNames(), ds, os, io, old(Images(chips)), Images(chips))
    {
      var d, o := ds[|os|], Kept;
      ghost var mid := Images(chips);
      if d.serial !in seen {
        seen := seen + {d.serial};
      } else {
        var ns := UniqueSerial(seen);
        var err := chips[d.index].WriteDongleSerial(ns, io[|os|]);
        if err.Some? {
          o := StillDuplicate;
          seen := seen + {d.serial};
        } else {
          o := Rewritten(ns);
          seen := seen + {ns};
          changed := true;
        }
      }
      assert Images(chips) == mid[d.index := chips[d.index].mem[..]];
      PassStep(AllNames(), ds, os, o);
      EffectStep(AllNames(), ds, os, o, io, old(Images(chips)), mid, chips[d.index].mem[..]);
      os := os + [o];
    }
  }

  lemma PassStep(names: seq<seq<byte>>, ds: seq<Device>, os: seq<Outcome>, o: Outcome)
    requires |os| < |ds| && IsPass(names, ds, os)
    requires if ds[|os|].serial !in Taken(ds, os) then o == Kept
             else o == StillDuplicate || o == Rewritten(Unique(names, Taken(ds, os)))
    ensures IsPass(names, ds, os + [o]) && Taken(ds, os + [o]) == Taken(ds, os) + {Marked(ds[|os|], o)}
    ensures (exists j :: 0 <= j < |os + [o]| && (os + [o])[j].Rewritten?) <==>
        o.Rewritten? || exists j :: 0 <= j < |os| && os[j].Rewritten?
  {
    hide Unique;
    var more := os + [o];
    TakenGrows(ds, os, o);
    assert more[..|os|] == os;
    forall i | 0 <= i < |os| ensures Decided(names, ds, more, i) {
      assert Decided(names, ds, os, i) && more[..i] == os[..i];
    }
    if exists j :: 0 <= j < |os| && os[j].Rewritten? {
      var j :| 0 <= j < |os| && os[j].Rewritten?;
      assert more[j].Rewritten?;
    }
    assert more[|os|] == o;
  }

  lemma EffectStep(names: seq<seq<byte>>, ds: seq<Device>, os: seq<Outcome>, o: Outcome, io: seq<Io>,
                   was: seq<seq<byte>>, mid: seq<seq<byte>>, image: seq<byte>)
    requires |names| > 0 && |os| < |ds| == |io| && |was| == |mid| && forall i :: 0 <= i < |ds| ==> ds[i].index < |was|
    requires forall i, j :: 0 <= i < j < |ds| ==> ds[i].index != ds[j].index
    requires PassEffect(names, ds, os, io, was, mid)
    requires ChipEffect(o, Unique(names, Taken(ds, os)), mid[ds[|os|].index], image, io[|os|])
    ensures PassEffect(names, ds, os + [o], io, was, mid[ds[|os|].index := image])
  {
    hide Unique, ChipEffect;
    var more, now := os + [o], mid[ds[|os|].index := image];
    assert more[..|os|] == os && mid[ds[|os|].index] == was[ds[|os|].index];
    forall i | 0 <= i < |more|
      ensures ChipEffect(more[i], Unique(names, Taken(ds, more[..i])), was[ds[i].index], now[ds[i].index], io[i])
    {
      if i < |os| {
        assert more[..i] == os[..i];
      }
    }
    forall k | 0 <= k < |was| && forall i :: 0 <= i < |more| ==> ds[i].index != k ensures now[k] == was[k] {
      assert ds[|os|].index != k;
    }
  }

  lemma TakenGrows(ds: seq<Device>, os: seq<Outcome>, o: Outcome)
    requires |os| < |ds|
    ensures Taken(ds, os + [o]) == Taken(ds, os) + {Marked(ds[|os|], o)}
  {
  }

  lemma {:induction false} TakenIsBounded(ds: seq<Device>, os: seq<Outcome>)
    requires |os| <= |ds|
    ensures |Taken(ds, os)| <= |os|
  {
    if os == [] {
      assert Taken(ds, os) == {};
    } else {
      var n := |os| - 1;
      TakenIsBounded(ds, os[..n]);
      assert os == os[..n] + [os[n]];
      TakenGrows(ds, os[..n], os[n]);
    }
  }

  // ----- What the pass achieves -----

  /** The serial a dongle reports from its chip. */
  function Reported(d: Device, images: seq<seq<byte>>): seq<byte>
    requires d.index < |images|
  {
    StringsOf(images[d.index]).serial
  }

  /** A whole pass over dongles that were enumerated with the serials on their chips. */
  ghost predicate WholePass(names: seq<seq<byte>>, ds: seq<Device>, os: seq<Outcome>, io: seq<Io>,
                            was: seq<seq<byte>>, now: seq<seq<byte>>) {
    && |os| == |ds| == |io| && |was| == |now| && (forall i :: 0 <= i < |ds| ==> ds[i].index < |was|)
    && IsPass(names, ds, os) && PassEffect(names, ds, os, io, was, now)
    && (forall i :: 0 <= i < |ds| ==> Reported(ds[i], was) == ds[i].serial)
  }

  /** The name the pass tries to write to dongle `i`, should it collide. */
  ghost function WantedName(names: seq<seq<byte>>, ds: seq<Device>, os: seq<Outcome>, i: nat): seq<byte>
    requires |names| > 0 && i < |os| <= |ds|
  {
    Unique(names, Taken(ds, os[..i]))
  }

  /** A chip the pass rewrote parses to the new serial, whichever outcome the write had. */
  lemma RewrittenChipHoldsName(o: Outcome, wanted: seq<byte>, was: seq<byte>, now: seq<byte>, io: Io)
    requires ChipEffect(o, wanted, was, now, io) && o.Rewritten?
    ensures StringsOf(now) == StringsOf(was).(serial := o.name)
  {
    ReportedSuccessIsReal(was, o.name, io);
  }

  /** A dongle kept or rewritten reports what the pass marked; one whose write failed, what that write left behind. */
  lemma ReportedAfterPass(names: seq<seq<byte>>, ds: seq<Device>, os: seq<Outcome>, io: seq<Io>,
                          was: seq<seq<byte>>, now: seq<seq<byte>>, i: nat)
    requires WholePass(names, ds, os, io, was, now) && i < |ds|
    ensures os[i] != StillDuplicate ==> Reported(ds[i], now) == Marked(ds[i], os[i])
    ensures os[i] == StillDuplicate ==>
              Reported(ds[i], now) == LeftBehind(was[ds[i].index], WantedName(names, ds, os, i), io[i])
  {
    var k := ds[i].index;
    assert ChipEffect(os[i], Unique(names, Taken(ds, os[..i])), was[k], now[k], io[i]);
    hide Unique, WriteSerial, StringsOf;
    if os[i].Rewritten? {
      RewrittenChipHoldsName(os[i], WantedName(names, ds, os, i), was[k], now[k], io[i]);
    }
  }

  /** A dongle stays a duplicate exactly if its serial was taken and writing the new one reported an error. */
  lemma StaysDuplicateIff(names: seq<seq<byte>>, ds: seq<Device>, os: seq<Outcome>, io: seq<Io>,
                          was: seq<seq<byte>>, now: seq<seq<byte>>, i: nat)
    requires WholePass(names, ds, os, io, was, now) && i < |ds|
    ensures os[i] == StillDuplicate <==>
            && ds[i].serial in Taken(ds, os[..i])
            && WriteSerial(was[ds[i].index], Unique(names, Taken(ds, os[..i])), io[i]).1 != None
    ensures os[i] == Kept <==> ds[i].serial !in Taken(ds, os[..i])
  {
    var wanted, k := Unique(names, Taken(ds, os[..i])), ds[i].index;
    assert Decided(names, ds, os, i) && ChipEffect(os[i], wanted, was[k], now[k], io[i]);
    hide Unique, WriteSerial, Taken;
  }

  lemma MarkedIsTaken(ds: seq<Device>, os: seq<Outcome>, i: nat, j: nat)
    requires i < j <= |os| <= |ds|
    ensures Marked(ds[i], os[i]) in Taken(ds, os[..j])
  {
    assert os[..j][i] == os[i];
  }

  /** What a dongle that was kept or rewritten is marked with was free before; a failed one's old serial was not. */
  lemma MarkedIsFresh(names: seq<seq<byte>>, ds: seq<Device>, os: seq<Outcome>, j: nat)
    requires Distinct(names) && |os| <= |ds| <= |names| && IsPass(names, ds, os) && j < |os|
    ensures os[j] == StillDuplicate <==> Marked(ds[j], os[j]) in Taken(ds, os[..j])
    ensures WantedName(names, ds, os, j) !in Taken(ds, os[..j])
  {
    assert Decided(names, ds, os, j);
    TakenIsBounded(ds, os[..j]);
    Pigeonhole(names, Taken(ds, os[..j]));
  }

  lemma DecidedCollidesIff(names: seq<seq<byte>>, ds: seq<Device>, os: seq<Outcome>, io: seq<Io>,
                           was: seq<seq<byte>>, now: seq<seq<byte>>, i: nat, j: nat)
    requires Distinct(names) && WholePass(names, ds, os, io, was, now) && |ds| <= |names|
    requires i < j < |ds| && os[j] != StillDuplicate
    ensures Reported(ds[i], now) == Reported(ds[j], now) <==>
            && os[i] == StillDuplicate
            && LeftBehind(was[ds[i].index], WantedName(names, ds, os, i), io[i]) == Marked(ds[j], os[j])
  {
    MarkedIsTaken(ds, os, i, j);
    MarkedIsFresh(names, ds, os, j);
    hide Unique, LeftBehind, Reported, Taken, PassEffect, IsPass;
    ReportedAfterPass(names, ds, os, io, was, now, i);
    ReportedAfterPass(names, ds, os, io, was, now, j);
  }

  /**
   With no more dongles than names (100000), a dongle that was kept or rewritten
   shares the serial of an earlier one if and only if a failed write left just that
   serial on the earlier one's chip, even when dongles later in the list already
   held generated names.
   */
  lemma CollidesIff(ds: seq<Device>, os: seq<Outcome>, io: seq<Io>, was: seq<seq<byte>>, now: seq<seq<byte>>,
      i: nat, j: nat)
    requires WholePass(AllNames(), ds, os, io, was, now) && |ds| <= NAME_LIMIT
    requires i < j < |ds| && os[j] != StillDuplicate
    ensures Reported(ds[i], now) == Reported(ds[j], now) <==>
            && os[i] == StillDuplicate
            && LeftBehind(was[ds[i].index], WantedName(AllNames(), ds, os, i), io[i]) == Marked(ds[j], os[j])
  {
    AllNamesDiffer();
    hide AllNames, WholePass, Unique, LeftBehind;
    DecidedCollidesIff(AllNames(), ds, os, io, was, now, i, j);
  }

  /** Of two dongles that report the same serial in the end, the write to at least one has failed. */
  lemma OnlyFailedWritesCollide(ds: seq<Device>, os: seq<Outcome>, io: seq<Io>, was: seq<seq<byte>>,
      now: seq<seq<byte>>, i: nat, j: nat)
    requires WholePass(AllNames(), ds, os, io, was, now) && |ds| <= NAME_LIMIT
    requires i < j < |ds| && Reported(ds[i], now) == Reported(ds[j], now)
    ensures os[i] == StillDuplicate || os[j] == StillDuplicate
  {
    if os[j] != StillDuplicate {
      CollidesIff(ds, os, io, was, now, i, j);
    }
  }

  /** With every write successful all dongles report different serials. */
  lemma AllWritesSucceeded(ds: seq<Device>, os: seq<Outcome>, io: seq<Io>, was: seq<seq<byte>>, now: seq<seq<byte>>)
    requires WholePass(AllNames(), ds, os, io, was, now) && |ds| <= NAME_LIMIT && StillDuplicate !in os
    ensures forall i, j :: 0 <= i < j < |ds| ==> Reported(ds[i], now) != Reported(ds[j], now)
  {
    hide AllNames, Reported, IsPass, PassEffect;
    forall i, j | 0 <= i < j < |ds| ensures Reported(ds[i], now) != Reported(ds[j], now) {
      assert os[i] in os && os[j] in os;
      if Reported(ds[i], now) == Reported(ds[j], now) {
        OnlyFailedWritesCollide(ds, os, io, was, now, i, j);
      }
    }
  }

  // ----- A write that was stored but not reported -----

  /** A serial marked between two moments was marked first by a dongle that was kept or rewritten. */
  lemma {:induction false} FirstToMark(names: seq<seq<byte>>, ds: seq<Device>, os: seq<Outcome>, i: nat, j: nat,
      s: seq<byte>)
    returns (k: nat)
    requires Distinct(names) && |os| == |ds| <= |names| && IsPass(names, ds, os) && i <= j <= |ds|
    requires s !in Taken(ds, os[..i]) && s in Taken(ds, os[..j])
    ensures i <= k < j && os[k] != StillDuplicate && Marked(ds[k], os[k]) == s
  {
    assert i < j;
    if s in Taken(ds, os[..j - 1]) {
      k := FirstToMark(names, ds, os, i, j - 1, s);
    } else {
      k := j - 1;
      assert os[..j] == os[..k] + [os[k]];
      TakenGrows(ds, os[..k], os[k]);
      MarkedIsFresh(names, ds, os, k);
    }
  }

  lemma {:induction false} SearchSkipsTaken(names: seq<seq<byte>>, a: set<seq<byte>>, b: set<seq<byte>>, i: nat)
    requires |names| > 0 && a <= b && UniqueFrom(names, a, i) !in b
    ensures UniqueFrom(names, b, i) == UniqueFrom(names, a, i)
    decreases |names| - i
  {
    if i < |names| && names[i] in a {
      SearchSkipsTaken(names, a, b, i + 1);
    }
  }

  lemma {:induction false} TakenOnlyGrows(ds: seq<Device>, os: seq<Outcome>, i: nat, j: nat)
    requires i <= j <= |os| <= |ds|
    ensures Taken(ds, os[..i]) <= Taken(ds, os[..j])
  {
    forall s | s in Taken(ds, os[..i]) ensures s in Taken(ds, os[..j]) {
      var k :| 0 <= k < i && s == Marked(ds[k], os[..i][k]);
      MarkedIsTaken(ds, os, k, j);
    }
  }

  /**
   After a write that failed at `i`, the next collision is offered the same name, unless that was marked in
   between.
   */
  lemma SameNameAgain(names: seq<seq<byte>>, ds: seq<Device>, os: seq<Outcome>, i: nat, j: nat) returns (k: nat)
    requires Distinct(names) && |os| == |ds| <= |names| && IsPass(names, ds, os)
    requires i < j < |ds| && os[i] == StillDuplicate
    requires os[j].Rewritten? || (os[j] == Kept && ds[j].serial == WantedName(names, ds, os, i))
    ensures i < k < |ds| && os[k] != StillDuplicate && Marked(ds[k], os[k]) == WantedName(names, ds, os, i)
  {
    var wanted := WantedName(names, ds, os, i);
    MarkedIsFresh(names, ds, os, i);
    assert Decided(names, ds, os, j);
    if wanted in Taken(ds, os[..j]) {
      k := FirstToMark(names, ds, os, i, j, wanted);
    } else {
      k := j;
      TakenOnlyGrows(ds, os, i, j);
      SearchSkipsTaken(names, Taken(ds, os[..i]), Taken(ds, os[..j]), 1);
    }
  }

  /**
   A write that reached the chip although an error was reported, as when only the
   read-back fails, is not marked as seen.  A later dongle ends up with the same
   serial if and only if one is rewritten or already held that name.
   */
  lemma UnreportedWriteCollidesIff(ds: seq<Device>, os: seq<Outcome>, io: seq<Io>, was: seq<seq<byte>>,
      now: seq<seq<byte>>, i: nat)
    requires WholePass(AllNames(), ds, os, io, was, now) && |ds| <= NAME_LIMIT && i < |ds|
    requires os[i] == StillDuplicate
    requires LeftBehind(was[ds[i].index], WantedName(AllNames(), ds, os, i), io[i]) == WantedName(AllNames(), ds, os, i)
    ensures (exists j :: i < j < |ds| && os[j] != StillDuplicate && Reported(ds[i], now) == Reported(ds[j], now)) <==>
            (exists j :: i < j < |ds| &&
                (os[j].Rewritten? || (os[j] == Kept && ds[j].serial == WantedName(AllNames(), ds, os, i))))
  {
    AllNamesDiffer();
    var names := AllNames();
    var wanted := WantedName(names, ds, os, i);
    hide AllNames, LeftBehind, WantedName, PassEffect, Reported;
    if j :| i < j < |ds| && os[j] != StillDuplicate && Reported(ds[i], now) == Reported(ds[j], now) {
      DecidedCollidesIff(names, ds, os, io, was, now, i, j);
      assert os[j].Rewritten? || (os[j] == Kept && ds[j].serial == wanted);
    }
    if j :| i < j < |ds| && (os[j].Rewritten? || (os[j] == Kept && ds[j].serial == wanted)) {
      var k := SameNameAgain(names, ds, os, i, j);
      DecidedCollidesIff(names, ds, os, io, was, now, i, k);
    }
  }

  /** A dongle that still reports the serial it collided with shares it with an earlier one. */
  lemma UnwrittenStaysDuplicate(ds: seq<Device>, os: seq<Outcome>, io: seq<Io>, was: seq<seq<byte>>,
      now: seq<seq<byte>>, j: nat)
    returns (i: nat)
    requires WholePass(AllNames(), ds, os, io, was, now) && |ds| <= NAME_LIMIT && j < |ds|
    requires os[j] == StillDuplicate && Reported(ds[j], now) == ds[j].serial
    ensures i < j && os[i] != StillDuplicate && Reported(ds[i], now) == Reported(ds[j], now)
  {
    AllNamesDiffer();
    var names := AllNames();
    hide AllNames, PassEffect, Reported;
    MarkedIsFresh(names, ds, os, j);
    i := FirstToMark(names, ds, os, 0, j, ds[j].serial);
    ReportedAfterPass(names, ds, os, io, was, now, i);
  }

  function Serials(ds: seq<Device>): seq<seq<byte>> {
    seq(|ds|, i requires 0 <= i < |ds| => ds[i].serial)
  }

  /** Nothing is written exactly when the serials were distinct to begin with. */
  lemma WritesOnlyOnCollision(names: seq<seq<byte>>, ds: seq<Device>, os: seq<Outcome>)
    requires |os| == |ds| && IsPass(names, ds, os)
    ensures (forall i :: 0 <= i < |os| ==> os[i] == Kept) <==> Distinct(Serials(ds))
  {
    if forall i :: 0 <= i < |os| ==> os[i] == Kept {
      forall i, j | 0 <= i < j < |ds| ensures ds[i].serial != ds[j].serial {
        assert Decided(names, ds, os, j) && os[..j][i] == Kept;
        assert Marked(ds[i], os[..j][i]) in Taken(ds, os[..j]);
      }
    }
    if Distinct(Serials(ds)) {
      KeptWhileDistinct(names, ds, os, |os|);
    }
  }

  lemma {:induction false} KeptWhileDistinct(names: seq<seq<byte>>, ds: seq<Device>, os: seq<Outcome>, n: nat)
    requires |os| == |ds| && IsPass(names, ds, os) && Distinct(Serials(ds)) && n <= |ds|
    ensures forall i :: 0 <= i < n ==> os[i] == Kept
  {
    hide Unique;
    if n > 0 {
      KeptWhileDistinct(names, ds, os, n - 1);
      assert Decided(names, ds, os, n - 1);
      forall i | 0 <= i < n - 1 ensures Marked(ds[i], os[..n - 1][i]) != ds[n - 1].serial {
        assert Serials(ds)[i] != Serials(ds)[n - 1];
      }
    }
  }

  // ----- Passes that go wrong -----

  /** The image of a dongle with a given serial. */
  function Holding(serial: seq<byte>): (image: seq<byte>)
    requires 1 <= |serial| <= 56
    ensures |image| == EEPROM_SIZE && StringsOf(image).serial == serial
  {
    BlankTakes(serial);
    RoundTrip(Blank(), serial);
    SetSerial(Blank(), serial).value
  }

  lemma WriteToHolding(serial: seq<byte>, name: seq<byte>)
    requires 1 <= |serial| <= 56 && 1 <= |name| <= 56
    ensures WriteSerial(Holding(serial), name, Io(true, Stored, true)) == (Holding(name), None)
    ensures WriteSerial(Holding(serial), name, Io(true, Stored, false)) == (Holding(name), Some(ReadFailed))
  {
    BlankTakes(serial);
    BlankTakes(name);
    SecondEditWins(Blank(), serial, name);
    StoredIsWholeEdit(Holding(serial), name);
  }

  const THREE: seq<Io> := [Io(true, Stored, true), Io(true, Stored, false), Io(true, Stored, true)]

  function ThreeOf(serial: seq<byte>): seq<Device> {
    [Device(0, serial), Device(1, serial), Device(2, serial)]
  }

  function ThreeOutcomes(name: seq<byte>): seq<Outcome> {
    [Kept, StillDuplicate, Rewritten(name)]
  }

  lemma ThreeMarked(names: seq<seq<byte>>, serial: seq<byte>)
    requires |names| > 1 && serial != names[1]
    ensures var (ds, os) := (ThreeOf(serial), ThreeOutcomes(names[1]));
            && Taken(ds, os[..0]) == {} && Taken(ds, os[..1]) == Taken(ds, os[..2]) == {serial}
            && Unique(names, {serial}) == names[1]
  {
    var (ds, os) := (ThreeOf(serial), ThreeOutcomes(names[1]));
    assert os[..0] == [] && os[..1] == [Kept] && os[..2] == [Kept, StillDuplicate];
    assert [Kept] == [] + [Kept] && [Kept, StillDuplicate] == [Kept] + [StillDuplicate];
    TakenGrows(ds, [], Kept);
    TakenGrows(ds, [Kept], StillDuplicate);
  }

  lemma ThreeDecided(names: seq<seq<byte>>, serial: seq<byte>)
    requires |names| > 1 && serial != names[1]
    ensures IsPass(names, ThreeOf(serial), ThreeOutcomes(names[1]))
  {
    var (ds, os) := (ThreeOf(serial), ThreeOutcomes(names[1]));
    ThreeMarked(names, serial);
    hide Unique, Taken;
    assert Decided(names, ds, os, 0) && Decided(names, ds, os, 1) && Decided(names, ds, os, 2);
  }

  lemma ThreeEffects(names: seq<seq<byte>>, serial: seq<byte>, before: seq<byte>, after: seq<byte>)
    requires |names| > 1 && serial != names[1]
    requires WriteSerial(before, names[1], THREE[1]) == (after, Some(ReadFailed))
    requires WriteSerial(before, names[1], THREE[2]) == (after, None)
    ensures PassEffect(names, ThreeOf(serial), ThreeOutcomes(names[1]), THREE, [before, before, before],
        [before, after, after])
  {
    var ds := ThreeOf(serial);
    var os := ThreeOutcomes(names[1]);
    ThreeMarked(names, serial);
    hide WriteSerial, Unique, Taken;
    var was, now := [before, before, before], [before, after, after];
    forall i | 0 <= i < 3
      ensures ChipEffect(os[i], Unique(names, Taken(ds, os[..i])), was[ds[i].index], now[ds[i].index], THREE[i])
    {
      if i == 0 {
      } else if i == 1 {
      } else {
      }
    }
    hide ChipEffect;
    assert forall k :: 0 <= k < 3 ==> ds[k].index == k;
  }

  /** The pass over three dongles whose chips hold `before`, and `after` once the name is written. */
  lemma ThreePass(names: seq<seq<byte>>, serial: seq<byte>, before: seq<byte>, after: seq<byte>)
    requires |names| > 1 && serial != names[1] && StringsOf(before).serial == serial
    requires WriteSerial(before, names[1], THREE[1]) == (after, Some(ReadFailed))
    requires WriteSerial(before, names[1], THREE[2]) == (after, None)
    ensures WholePass(names, ThreeOf(serial), ThreeOutcomes(names[1]), THREE, [before, before, before],
        [before, after, after])
  {
    ThreeDecided(names, serial);
    ThreeEffects(names, serial, before, after);
    hide IsPass, PassEffect, StringsOf, WriteSerial;
  }

  /**
   Three dongles with one serial: the write to the second is stored but its read-back
   fails; the third is then given the same name, and its write succeeds.
   */
  lemma UnreportedWriteCollides(serial: seq<byte>)
    requires 1 <= |serial| <= 56 && serial != Name(1)
    ensures |Name(1)| <= 56
    ensures var now := [Holding(serial), Holding(Name(1)), Holding(Name(1))];
            && WholePass(AllNames(), ThreeOf(serial), ThreeOutcomes(Name(1)), THREE,
                         [Holding(serial), Holding(serial), Holding(serial)], now)
            && Reported(ThreeOf(serial)[1], now) == Reported(ThreeOf(serial)[2], now) == Name(1)
  {
    AllNamesDiffer();
    NameFits(1);
    hide AllNames, Name, Holding, WholePass;
    assert AllNames()[1] == Name(1);
    WriteToHolding(serial, Name(1));
    hide WriteSerial;
    ThreePass(AllNames(), serial, Holding(serial), Holding(Name(1)));
  }

  /** Dongles that hold every generated name, and one more with a colliding serial. */
  ghost function FullHouse(names: seq<seq<byte>>): seq<Device>
    requires |names| > 0
  {
    seq(|names| + 1, i requires 0 <= i <= |names| => Device(i, if i < |names| then names[i] else names[0]))
  }

  ghost function FullHouseOutcome(names: seq<seq<byte>>): seq<Outcome>
    requires |names| > 0
  {
    seq(|names| + 1, i requires 0 <= i <= |names| => if i < |names| then Kept else Rewritten(names[0]))
  }

  ghost function FullHouseImages(names: seq<seq<byte>>): seq<seq<byte>>
    requires |names| > 0 && forall i :: 0 <= i < |names| ==> 1 <= |names[i]| <= 56
  {
    seq(|names| + 1, i requires 0 <= i <= |names| => Holding(if i < |names| then names[i] else names[0]))
  }

  lemma FullHouseCollides(names: seq<seq<byte>>)
    requires |names| > 0 && Distinct(names) && forall i :: 0 <= i < |names| ==> 1 <= |names[i]| <= 56
    ensures var ds, os, images := FullHouse(names), FullHouseOutcome(names), FullHouseImages(names);
            && |ds| == |os| == |images| == |names| + 1
            && WholePass(names, ds, os, seq(|ds|, _ => Io(true, Stored, true)), images, images)
            && StillDuplicate !in os && Reported(ds[0], images) == Reported(ds[|names|], images)
  {
    var ds, os, images := FullHouse(names), FullHouseOutcome(names), FullHouseImages(names);
    FullHousePass(names);
    WriteToHolding(names[0], names[0]);
    hide WriteSerial, StringsOf, Holding, Unique;
    assert IsPass(names, ds, os);
  }

  lemma FullHousePass(names: seq<seq<byte>>)
    requires |names| > 0 && Distinct(names)
    ensures IsPass(names, FullHouse(names), FullHouseOutcome(names))
  {
    var ds, os := FullHouse(names), FullHouseOutcome(names);
    forall i | 0 <= i < |os| ensures Decided(names, ds, os, i) {
      var taken := Taken(ds, os[..i]);
      forall j | 0 <= j < i ensures Marked(ds[j], os[..i][j]) == names[j] && names[j] in taken {
      }
      if i == |names| {
        UniqueFromSearches(names, taken, 1);
      }
    }
  }

  /** The bound is sharp: with one dongle more than there are names, successful writes only can leave a collision. */
  lemma BoundIsSharp() returns (ds: seq<Device>, os: seq<Outcome>, io: seq<Io>, images: seq<seq<byte>>)
    ensures |ds| == |os| == |io| == |images| == NAME_LIMIT + 1
    ensures WholePass(AllNames(), ds, os, io, images, images) && StillDuplicate !in os
    ensures Reported(ds[0], images) == Reported(ds[NAME_LIMIT], images)
  {
    AllNamesDiffer();
    var names := AllNames();
    forall i | 0 <= i < |names| ensures 1 <= |names[i]| <= 56 {
      NameFits(i);
    }
    hide AllNames, Name, WholePass, Reported;
    FullHouseCollides(names);
    ds, os, images := FullHouse(names), FullHouseOutcome(names), FullHouseImages(names);
    io := seq(|ds|, _ => Io(true, Stored, true));
  }
}
