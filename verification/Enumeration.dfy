/** Dongles and their enumeration with a cache of identities (agent/decoders.go, agent/dongles_windows.go). */
module Enumeration {
  import opened Common

  datatype Dongle = Dongle(index: nat, serial: string, product: string, port: string)

  /** The identifier the supervisor tracks a dongle by: its USB port, or its serial when no port is known. */
  function Key(d: Dongle): string {
    if d.port != "" then d.port else d.serial
  }

  /** The strings read from one device; none when it could not be read. */
  datatype Strings = Strings(product: string, serial: string)

  /** What one scan of the bus sees: the strings of each device, and the port of each as far as known. */
  datatype Scan = Scan(found: seq<Option<Strings>>, ports: seq<string>)

  function PortOf(s: Scan, i: nat): string {
    if i < |s.ports| then s.ports[i] else ""
  }

  type Cache = map<string, Dongle>

  /** The dongle reported for device `i`: as read, or as cached for its port, or none. */
  function Found(s: Scan, cache: Cache, i: nat): Option<Dongle>
    requires i < |s.found|
  {
    var port := PortOf(s, i);
    match s.found[i]
    case Some(r) => Some(Dongle(i, r.serial, r.product, port))
    case None => if port != "" && port in cache then Some(cache[port].(index := i)) else None
  }

  function CacheOne(s: Scan, cache: Cache, i: nat): Cache
    requires i < |s.found|
  {
    var port := PortOf(s, i);
    if s.found[i].Some? && port != ""
    then cache[port := Dongle(i, s.found[i].value.serial, s.found[i].value.product, port)]
    else cache
  }

  function FoundList(s: Scan, cache: Cache, i: nat): (r: seq<Dongle>)
    requires i < |s.found|
  {
    match Found(s, cache, i)
    case Some(d) => [d]
    case None => []
  }

  /** The dongles reported for the devices from `i` on. */
  function ListFrom(s: Scan, cache: Cache, i: nat): seq<Dongle>
    requires i <= |s.found|
    decreases |s.found| - i
  {
    if i == |s.found| then [] else FoundList(s, cache, i) + ListFrom(s, CacheOne(s, cache, i), i + 1)
  }

  /** The cache behind the devices from `i` on. */
  function CacheFrom(s: Scan, cache: Cache, i: nat): Cache
    requires i <= |s.found|
    decreases |s.found| - i
  {
    if i == |s.found| then cache else CacheFrom(s, CacheOne(s, cache, i), i + 1)
  }

  /** The dongles one scan reports. */
  function Listed(s: Scan, cache: Cache): seq<Dongle> {
    ListFrom(s, cache, 0)
  }

  /** The cache one scan leaves: ports that are gone are forgotten. */
  function CacheOf(s: Scan, cache: Cache): Cache {
    var scanned := CacheFrom(s, cache, 0);
    map p | p in scanned && p in s.ports :: scanned[p]
  }

  lemma ListUnfolds(s: Scan, cache: Cache, i: nat, out: seq<Dongle>)
    requires i < |s.found|
    ensures out + ListFrom(s, cache, i) == (out + FoundList(s, cache, i)) + ListFrom(s, CacheOne(s, cache, i), i + 1)
  {
  }

  lemma ListEnds(s: Scan, cache: Cache)
    ensures ListFrom(s, cache, |s.found|) == []
  {
  }

  class Enumerator {
    var cache: Cache

    constructor ()
      ensures cache == map[]
    {
      cache := map[];
    }

    method EnumerateDongles(s: Scan) returns (out: seq<Dongle>)
      modifies this
      ensures out == Listed(s, old(cache)) && cache == CacheOf(s, old(cache))
    {
      hide ListFrom;
      out := [];
      assert [] + Listed(s, cache) == Listed(s, cache);
      var i := 0;
      while i < |s.found|
        invariant 0 <= i <= |s.found|
        invariant Listed(s, old(cache)) == out + ListFrom(s, cache, i)
        invariant CacheFrom(s, old(cache), 0) == CacheFrom(s, cache, i)
      {
        ListUnfolds(s, cache, i, out);
        var port := if i < |s.ports| then s.ports[i] else "";
        if s.found[i].None? {
          if port in cache && port != "" {
            out := out + [cache[port].(index := i)];
          }
        } else {
          var d := Dongle(i, s.found[i].value.serial, s.found[i].value.product, port);
          out := out + [d];
          if port != "" {
            cache := cache[port := d];
          }
        }
        i := i + 1;
      }
      ListEnds(s, cache);
      assert out + [] == out;
      ForgetAbsent(s.ports);
    }

    method ForgetAbsent(ports: seq<string>)
      modifies this
      ensures cache == map p | p in old(cache) && p in ports :: old(cache)[p]
    {
      var left := cache.Keys;
      while left != {}
        invariant left <= old(cache).Keys
        invariant cache == map p | p in old(cache) && (p in left || p in ports) :: old(cache)[p]
      {
        var port :| port in left;
        if port !in ports {
          cache := cache - {port};
        }
        left := left - {port};
      }
    }
  }

  // ----- One scan -----

  /** The ports of one scan are distinct where known. */
  predicate DistinctPorts(s: Scan) {
    forall i, j :: 0 <= i < j < |s.ports| && s.ports[i] != "" ==> s.ports[i] != s.ports[j]
  }

  /** A cached identity carries the port it is cached under. */
  predicate ValidCache(cache: Cache) {
    forall p :: p in cache ==> p != "" && cache[p].port == p
  }

  /** Dongles of devices from `i` on, in increasing index order, each with the port of its device. */
  predicate InOrder(s: Scan, out: seq<Dongle>, i: nat) {
    && (forall k :: 0 <= k < |out| ==> i <= out[k].index < |s.found| && out[k].port == PortOf(s, out[k].index))
    && (forall k, l :: 0 <= k < l < |out| ==> out[k].index < out[l].index)
  }

  lemma {:induction false} CacheFromValid(s: Scan, cache: Cache, i: nat)
    requires i <= |s.found| && ValidCache(cache)
    ensures ValidCache(CacheFrom(s, cache, i))
    decreases |s.found| - i
  {
    if i < |s.found| {
      CacheFromValid(s, CacheOne(s, cache, i), i + 1);
    }
  }

  /** Every scan leaves a cache in which each identity carries its port. */
  lemma CacheStaysValid(s: Scan, cache: Cache)
    requires ValidCache(cache)
    ensures ValidCache(CacheOf(s, cache))
  {
    CacheFromValid(s, cache, 0);
  }

  lemma FoundHere(s: Scan, cache: Cache, i: nat)
    requires i < |s.found| && ValidCache(cache)
    ensures ValidCache(CacheOne(s, cache, i))
    ensures |FoundList(s, cache, i)| <= 1
    ensures forall d :: d in FoundList(s, cache, i) ==> d.index == i && d.port == PortOf(s, i)
  {
  }

  lemma InOrderAfter(s: Scan, here: seq<Dongle>, rest: seq<Dongle>, i: nat)
    requires i < |s.found| && |here| <= 1 && InOrder(s, rest, i + 1)
    requires forall d :: d in here ==> d.index == i && d.port == PortOf(s, i)
    ensures InOrder(s, here + rest, i)
  {
  }

  lemma {:induction false} ListFromInOrder(s: Scan, cache: Cache, i: nat)
    requires i <= |s.found| && ValidCache(cache)
    ensures InOrder(s, ListFrom(s, cache, i), i)
    decreases |s.found| - i
  {
    if i < |s.found| {
      FoundHere(s, cache, i);
      hide FoundList, CacheOne, ValidCache, InOrder;
      ListFromInOrder(s, CacheOne(s, cache, i), i + 1);
      InOrderAfter(s, FoundList(s, cache, i), ListFrom(s, CacheOne(s, cache, i), i + 1), i);
    }
  }

  /**
   A scan lists devices in increasing index order, each with its own port; where every device has a port, keys
   are distinct.
   */
  lemma ListedOnce(s: Scan, cache: Cache)
    requires ValidCache(cache) && DistinctPorts(s)
    ensures InOrder(s, Listed(s, cache), 0)
    ensures (forall i :: 0 <= i < |s.found| ==> PortOf(s, i) != "") ==>
              forall k, l :: 0 <= k < l < |Listed(s, cache)| ==> Key(Listed(s, cache)[k]) != Key(Listed(s, cache)[l])
  {
    ListFromInOrder(s, cache, 0);
    var out := Listed(s, cache);
    if forall i :: 0 <= i < |s.found| ==> PortOf(s, i) != "" {
      forall k, l | 0 <= k < l < |out| ensures Key(out[k]) != Key(out[l]) {
        assert PortOf(s, out[k].index) == out[k].port && PortOf(s, out[l].index) == out[l].port;
      }
    }
  }

  // ----- Any sequence of scans -----

  function CacheAfter(history: seq<Scan>): Cache {
    if history == [] then map[]
    else CacheOf(history[|history| - 1], CacheAfter(history[..|history| - 1]))
  }

  /** Device `i` sits at `port` and could be read. */
  predicate ReadHere(s: Scan, port: string, i: int) {
    0 <= i < |s.found| && PortOf(s, i) == port && s.found[i].Some?
  }

  function ReadIdentity(s: Scan, port: string, i: nat): Dongle
    requires ReadHere(s, port, i)
  {
    Dongle(i, s.found[i].value.serial, s.found[i].value.product, port)
  }

  /** The identity read at a port in one scan, if it was read there. */
  ghost function ReadAt(s: Scan, port: string): Option<Dongle> {
    if exists i :: ReadHere(s, port, i) then var i :| ReadHere(s, port, i); Some(ReadIdentity(s, port, i)) else None
  }

  /** The last identity read at a port since the port was last absent from the bus. */
  ghost function LastReadable(history: seq<Scan>, port: string): Option<Dongle> {
    if history == [] then None
    else
      var last := history[|history| - 1];
      if port !in last.ports then None
      else if ReadAt(last, port).Some? then ReadAt(last, port)
      else LastReadable(history[..|history| - 1], port)
  }

  lemma {:induction false} CacheFromSpec(s: Scan, cache: Cache, i: nat, port: string)
    requires i <= |s.found| && DistinctPorts(s) && port != ""
    ensures var final := CacheFrom(s, cache, i);
            && (forall k :: i <= k && ReadHere(s, port, k) ==> port in final && final[port] == ReadIdentity(s, port, k))
            && ((forall k :: i <= k ==> !ReadHere(s, port, k)) ==>
                  (port in final <==> port in cache) && (port in final ==> final[port] == cache[port]))
    decreases |s.found| - i
  {
    if i < |s.found| {
      CacheFromSpec(s, CacheOne(s, cache, i), i + 1, port);
      if ReadHere(s, port, i) {
        forall k | i < k ensures !ReadHere(s, port, k) {
        }
      }
    }
  }

  /** The cache holds exactly the last identity read at each port since that port was last absent. */
  lemma {:induction false} CacheIsHistory(history: seq<Scan>)
    requires forall s :: s in history ==> DistinctPorts(s)
    ensures ValidCache(CacheAfter(history))
    ensures forall port :: port != "" ==>
              (if port in CacheAfter(history) then Some(CacheAfter(history)[port]) else None) ==
                  LastReadable(history, port)
  {
    if history != [] {
      var s, before := history[|history| - 1], history[..|history| - 1];
      CacheIsHistory(before);
      forall port | port != ""
        ensures (if port in CacheAfter(history) then Some(CacheAfter(history)[port]) else None) ==
            LastReadable(history, port)
      {
        CacheFromSpec(s, CacheAfter(before), 0, port);
      }
      NoEmptyPort(s, CacheAfter(before), 0);
      forall p | p in CacheAfter(history) ensures p != "" && CacheAfter(history)[p].port == p {
        CacheFromSpec(s, CacheAfter(before), 0, p);
      }
    }
  }

  lemma {:induction false} NoEmptyPort(s: Scan, cache: Cache, i: nat)
    requires i <= |s.found| && "" !in cache
    ensures "" !in CacheFrom(s, cache, i)
    decreases |s.found| - i
  {
    if i < |s.found| {
      NoEmptyPort(s, CacheOne(s, cache, i), i + 1);
    }
  }

  /** What a scan reports for device `i` over any history: the strings read now, or the last ones read at its port. */
  lemma ReportedIsLastReadable(history: seq<Scan>, s: Scan, i: nat)
    requires (forall h :: h in history ==> DistinctPorts(h)) && DistinctPorts(s) && i < |s.found| && PortOf(s, i) != ""
    ensures var found := Found(s, CacheAfter(history), i);
            match s.found[i]
            case Some(r) => found == Some(Dongle(i, r.serial, r.product, PortOf(s, i)))
            case None =>
              match LastReadable(history, PortOf(s, i))
              case Some(d) => found == Some(d.(index := i))
              case None => found == None
  {
    CacheIsHistory(history);
  }

  /** The same with the port written out: a device at a known port, and one whose port is not known. */
  lemma ReportedSpelled(history: seq<Scan>, s: Scan, i: nat)
    requires (forall h :: h in history ==> DistinctPorts(h)) && DistinctPorts(s) && i < |s.found|
    ensures var found := Found(s, CacheAfter(history), i);
            && (i < |s.ports| && s.ports[i] != "" ==>
                  match s.found[i]
                  case Some(r) => found == Some(Dongle(i, r.serial, r.product, s.ports[i]))
                  case None =>
                    match LastReadable(history, s.ports[i])
                    case Some(d) => found == Some(Dongle(i, d.serial, d.product, s.ports[i]))
                    case None => found == None)
            && (i >= |s.ports| || s.ports[i] == "" ==>
                  match s.found[i]
                  case Some(r) => found == Some(Dongle(i, r.serial, r.product, ""))
                  case None => found == None)
  {
    if i < |s.ports| && s.ports[i] != "" {
      ReportedIsLastReadable(history, s, i);
      CacheIsHistory(history);
    }
  }

  /** A dongle on a known port is told by the port alone, any other by its serial alone. */
  lemma KeySpelled(d: Dongle)
    ensures d.port != "" ==> Key(d) == d.port
    ensures d.port == "" ==> Key(d) == d.serial
  {
  }
}
