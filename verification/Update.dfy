/** The self-update: download, move the running binary aside, install, roll back (agent/update.go:92-133). */
module Update {
  import opened Common

  type Binary = seq<byte>

  /** The paths involved: the executable, the download next to it, and the binary moved aside. */
  datatype Path = Exe | New | Old

  type Files = map<Path, Binary>

  /** What happens to one attempt: the chunks of the release, how many arrive, and which operations work. */
  datatype Attempt = Attempt(
    located: bool, created: bool, chunks: seq<Binary>, arrived: nat, clean: bool,
    removes: bool, asides: bool, cleans: bool, installs: bool, rollsBack: bool)

  function Concat(chunks: seq<Binary>): Binary {
    if chunks == [] then [] else Concat(chunks[..|chunks| - 1]) + chunks[|chunks| - 1]
  }

  function Arrived(a: Attempt): nat {
    Min(a.arrived, |a.chunks|)
  }

  /** The download is complete. */
  predicate Downloads(a: Attempt) {
    a.located && a.created && a.arrived >= |a.chunks| && a.clean
  }

  // ----- File operations -----

  function Removed(d: Files, p: Path, works: bool): Files {
    if works then d - {p} else d
  }

  /** Renaming replaces what is at the destination, and fails if there is nothing to rename. */
  function Renamed(d: Files, from: Path, to: Path, works: bool): Files {
    if works && from in d then (d - {from})[to := d[from]] else d
  }

  /** The disk after each file operation of the download. */
  function DownloadSteps(d: Files, a: Attempt): seq<Files> {
    if !a.located || !a.created then []
    else seq(Arrived(a) + 1, i requires 0 <= i <= Arrived(a) => d[New := Concat(a.chunks[..i])])
  }

  /** The disk after each operation that puts a complete download in place. */
  function InstallSteps(d: Files, a: Attempt): seq<Files> {
    var cleared := Removed(d, Old, a.removes);
    var aside := Renamed(cleared, Exe, Old, a.asides);
    if Exe !in d || !a.asides then [cleared, aside, Removed(aside, New, a.cleans)]
    else
      var installed := Renamed(aside, New, Exe, a.installs);
      if New !in d || !a.installs then [cleared, aside, installed, Renamed(installed, Old, Exe, a.rollsBack)]
      else [cleared, aside, installed]
  }

  function End(d: Files, steps: seq<Files>): Files {
    if steps == [] then d else steps[|steps| - 1]
  }

  /** The disk after each operation of one attempt: every state a crash can leave. */
  function Steps(d: Files, a: Attempt): seq<Files> {
    var down := DownloadSteps(d, a);
    if !Downloads(a) then down else down + InstallSteps(End(d, down), a)
  }

  predicate Succeeds(d: Files, a: Attempt) {
    Downloads(a) && Exe in d && a.asides && a.installs
  }

  lemma NothingYet(chunks: seq<Binary>)
    ensures Concat(chunks[..0]) == []
  {
  }

  lemma OneMore(chunks: seq<Binary>, i: nat)
    requires i < |chunks|
    ensures Concat(chunks[..i + 1]) == Concat(chunks[..i]) + chunks[i]
  {
    assert chunks[..i + 1][..i] == chunks[..i];
  }

  class Disk {
    var files: Files
    ghost var trace: seq<Files>

    constructor (files: Files)
      ensures this.files == files && trace == []
    {
      this.files, trace := files, [];
    }

    method Write(p: Path, b: Binary)
      modifies this
      ensures files == old(files)[p := b] && trace == old(trace) + [files]
    {
      files := files[p := b];
      trace := trace + [files];
    }

    method Remove(p: Path, works: bool)
      modifies this
      ensures files == Removed(old(files), p, works) && trace == old(trace) + [files]
    {
      if works {
        files := files - {p};
      }
      trace := trace + [files];
    }

    method Rename(from: Path, to: Path, works: bool) returns (ok: bool)
      modifies this
      ensures files == Renamed(old(files), from, to, works) && trace == old(trace) + [files]
      ensures ok <==> works && from in old(files)
    {
      ok := works && from in files;
      if ok {
        files := (files - {from})[to := files[from]];
      }
      trace := trace + [files];
    }

    method Download(a: Attempt) returns (ok: bool)
      requires a.located
      modifies this
      ensures trace == old(trace) + DownloadSteps(old(files), a)
      ensures files == End(old(files), DownloadSteps(old(files), a))
      ensures ok <==> Downloads(a)
    {
      hide Concat;
      if !a.created {
        return false;
      }
      ghost var steps := DownloadSteps(files, a);
      NothingYet(a.chunks);
      Write(New, []);
      var i := 0;
      var copied: Binary := [];
      while i < |a.chunks| && i < a.arrived
        invariant 0 <= i <= Arrived(a) && copied == Concat(a.chunks[..i])
        invariant files == steps[i] && trace == old(trace) + steps[..i + 1]
      {
        OneMore(a.chunks, i);
        copied := copied + a.chunks[i];
        Write(New, copied);
        i := i + 1;
        assert files == steps[i];
      }
      assert steps[..i + 1] == steps;
      return i == |a.chunks| && a.clean;
    }

    /** Puts a complete download in place of the running executable. */
    method Install(a: Attempt) returns (ok: bool)
      modifies this
      ensures trace == old(trace) + InstallSteps(old(files), a)
      ensures files == End(old(files), InstallSteps(old(files), a))
      ensures ok <==> Exe in old(files) && a.asides && New in old(files) && a.installs
    {
      Remove(Old, a.removes);
      var aside := Rename(Exe, Old, a.asides);
      if !aside {
        Remove(New, a.cleans);
        return false;
      }
      var installed := Rename(New, Exe, a.installs);
      if !installed {
        var _ := Rename(Old, Exe, a.rollsBack);
        return false;
      }
      return true;
    }

    method SelfUpdate(a: Attempt) returns (ok: bool)
      modifies this
      ensures trace == old(trace) + Steps(old(files), a)
      ensures files == End(old(files), Steps(old(files), a))
      ensures ok <==> Succeeds(old(files), a)
    {
      DownloadEnds(files, a);
      if !a.located {
        return false;
      }
      var downloaded := Download(a);
      if !downloaded {
        return false;
      }
      ok := Install(a);
    }
  }

  // ----- One attempt -----

  /** The previous binary is intact at one of its two places, and the executable is never partial. */
  predicate Safe(d: Files, previous: Binary, release: Binary) {
    && ((Exe in d && d[Exe] == previous) || (Old in d && d[Old] == previous))
    && (Exe in d ==> d[Exe] == previous || d[Exe] == release)
  }

  lemma DownloadEnds(d: Files, a: Attempt)
    ensures forall k :: 0 <= k < |DownloadSteps(d, a)| ==> DownloadSteps(d, a)[k] - {New} == d - {New}
    ensures End(d, DownloadSteps(d, a)) - {New} == d - {New}
    ensures Downloads(a) ==> End(d, DownloadSteps(d, a)) == d[New := Concat(a.chunks)]
  {
    if Downloads(a) {
      assert a.chunks[..|a.chunks|] == a.chunks;
    }
  }

  lemma OtherPaths(d: Files, e: Files, p: Path)
    requires d - {New} == e - {New} && p != New
    ensures (p in d <==> p in e) && (p in d ==> d[p] == e[p])
  {
    assert p in d <==> p in d - {New};
    assert p in e <==> p in e - {New};
    if p in d {
      assert (d - {New})[p] == d[p] && (e - {New})[p] == e[p];
    }
  }

  /** Wherever an attempt stops, by error or crash, the working binary is not lost. */
  lemma NeverLost(d: Files, a: Attempt)
    requires Exe in d
    ensures forall k :: 0 <= k < |Steps(d, a)| ==> Safe(Steps(d, a)[k], d[Exe], Concat(a.chunks))
  {
    DownloadEnds(d, a);
    var down := DownloadSteps(d, a);
    hide DownloadSteps, Concat;
    forall k | 0 <= k < |down| ensures Safe(down[k], d[Exe], Concat(a.chunks)) {
      OtherPaths(d, down[k], Exe);
    }
    OtherPaths(d, End(d, down), Exe);
  }

  /** The rename that would put the binary back fails too. */
  predicate Stranded(d: Files, a: Attempt) {
    Downloads(a) && Exe in d && a.asides && !a.installs && !a.rollsBack
  }

  /**
   Success leaves the release installed, the previous binary aside and no download
   behind; failure leaves the executable as it was except exactly when the roll back fails.
   */
  lemma Outcome(d: Files, a: Attempt)
    requires Exe in d
    ensures var e := End(d, Steps(d, a));
            && (Succeeds(d, a) ==> Exe in e && e[Exe] == Concat(a.chunks) && Old in e && e[Old] == d[Exe] && New !in e)
            && (!Succeeds(d, a) ==> ((Exe in e && e[Exe] == d[Exe]) <==> !Stranded(d, a)))
            && (Stranded(d, a) ==> Exe !in e && Old in e && e[Old] == d[Exe])
  {
    DownloadEnds(d, a);
    var down := DownloadSteps(d, a);
    hide DownloadSteps, Concat;
    OtherPaths(d, End(d, down), Exe);
  }

  // ----- Every outcome, spelled out -----

  /** The chunks are joined in order. */
  lemma ConcatSpelled(x: Binary, y: Binary)
    ensures Concat([]) == [] && Concat([x, y]) == x + y
  {
    assert [x, y][..1] == [x] && [x][..0] == [];
    assert Concat([x]) == Concat([]) + x == x;
  }

  /** While a download arrives, the disk holds ever more of it next to the executable. */
  lemma DownloadSpelled(d: Files, a: Attempt, k: nat)
    requires a.located && a.created && k <= |a.chunks| && k <= a.arrived
    ensures |Steps(d, a)| > k && Steps(d, a)[k] == d[New := Concat(a.chunks[..k])]
  {
    assert DownloadSteps(d, a)[k] == d[New := Concat(a.chunks[..k])];
  }

  /** What an incomplete download leaves: nothing, or as much as arrived next to the executable. */
  lemma IncompleteSpelled(d: Files, a: Attempt)
    requires !a.located || !a.created || a.arrived < |a.chunks| || !a.clean
    ensures End(d, Steps(d, a)) ==
            if !a.located || !a.created then d
            else d[New := Concat(if a.arrived < |a.chunks| then a.chunks[..a.arrived] else a.chunks)]
  {
    assert a.chunks[..|a.chunks|] == a.chunks;
    assert |DownloadSteps(d, a)| == if !a.located || !a.created then 0 else Arrived(a) + 1;
  }

  /** Without an executable to move aside an attempt reports failure, and none appears. */
  lemma NothingToReplace(d: Files, a: Attempt)
    requires Exe !in d
    ensures !Succeeds(d, a) && Exe !in End(d, Steps(d, a))
  {
    DownloadEnds(d, a);
    var down := DownloadSteps(d, a);
    hide DownloadSteps, Concat;
    OtherPaths(d, End(d, down), Exe);
  }

  /** What a complete download leaves, by the first rename that fails. */
  lemma CompleteSpelled(d: Files, a: Attempt)
    requires a.located && a.created && |a.chunks| <= a.arrived && a.clean
    ensures var (e, release) := (End(d, Steps(d, a)), Concat(a.chunks));
            var kept := if a.removes then d - {Old} else d;
            if Exe !in d || !a.asides then e == if a.cleans then kept - {New} else kept[New := release]
            else if a.installs then e == map[Exe := release, Old := d[Exe]]
            else if a.rollsBack then e == map[Exe := d[Exe], New := release]
            else e == map[Old := d[Exe], New := release]
  {
    DownloadEnds(d, a);
    var mid := d[New := Concat(a.chunks)];
    assert Steps(d, a) == DownloadSteps(d, a) + InstallSteps(mid, a);
    assert End(d, Steps(d, a)) == End(mid, InstallSteps(mid, a));
    hide DownloadSteps, Concat, Steps;
    if Exe in d && a.asides {
      var e := End(mid, InstallSteps(mid, a));
      assert forall p :: p in e ==> p == Exe || p == Old || p == New;
    }
  }

  // ----- Attempt after attempt -----

  /** Some complete binary is at the executable's place or aside. */
  predicate Recoverable(d: Files) {
    Exe in d || Old in d
  }

  /** An attempt that clears the old binary away starts with the executable in place. */
  predicate Careful(d: Files, a: Attempt) {
    Exe in d || !Downloads(a) || !a.removes
  }

  function DiskAfter(d: Files, attempts: seq<Attempt>): Files
    decreases |attempts|
  {
    if attempts == [] then d else DiskAfter(End(d, Steps(d, attempts[0])), attempts[1..])
  }

  /** Every state the disk goes through. */
  function AllSteps(d: Files, attempts: seq<Attempt>): seq<Files>
    decreases |attempts|
  {
    if attempts == [] then [] else Steps(d, attempts[0]) + AllSteps(End(d, Steps(d, attempts[0])), attempts[1..])
  }

  ghost predicate AllRecoverable(steps: seq<Files>) {
    forall k :: 0 <= k < |steps| ==> Recoverable(steps[k])
  }

  /** What stands at the executable's place and aside is one of these whole binaries. */
  predicate Whole(d: Files, known: set<Binary>) {
    (Exe in d ==> d[Exe] in known) && (Old in d ==> d[Old] in known)
  }

  ghost predicate AllWhole(steps: seq<Files>, known: set<Binary>) {
    forall k :: 0 <= k < |steps| ==> Whole(steps[k], known)
  }

  /** The releases that were downloaded completely. */
  function Releases(attempts: seq<Attempt>): set<Binary>
    decreases |attempts|
  {
    if attempts == [] then {}
    else (if Downloads(attempts[0]) then {Concat(attempts[0].chunks)} else {}) + Releases(attempts[1..])
  }

  predicate CarefulRun(d: Files, attempts: seq<Attempt>)
    decreases |attempts|
  {
    attempts == [] || (Careful(d, attempts[0]) && CarefulRun(End(d, Steps(d, attempts[0])), attempts[1..]))
  }

  lemma AttemptKeepsBinaryIff(d: Files, a: Attempt)
    requires Recoverable(d)
    ensures AllRecoverable(Steps(d, a)) <==> Careful(d, a)
    ensures Careful(d, a) ==> Recoverable(End(d, Steps(d, a)))
  {
    DownloadEnds(d, a);
    var down := DownloadSteps(d, a);
    var mid := End(d, down);
    hide DownloadSteps, Concat;
    forall k | 0 <= k < |down| ensures Recoverable(down[k]) {
      OtherPaths(d, down[k], Exe);
      OtherPaths(d, down[k], Old);
    }
    OtherPaths(d, mid, Exe);
    OtherPaths(d, mid, Old);
    if Downloads(a) {
      var install := InstallSteps(mid, a);
      assert Steps(d, a) == down + install;
      assert Steps(d, a)[|down|] == install[0];
    }
  }

  lemma AttemptKeepsWhole(d: Files, a: Attempt, known: set<Binary>)
    requires Whole(d, known) && (Downloads(a) ==> Concat(a.chunks) in known)
    ensures AllWhole(Steps(d, a), known) && Whole(End(d, Steps(d, a)), known)
  {
    DownloadEnds(d, a);
    var down := DownloadSteps(d, a);
    var mid := End(d, down);
    hide DownloadSteps, Concat;
    forall k | 0 <= k < |down| ensures Whole(down[k], known) {
      OtherPaths(d, down[k], Exe);
      OtherPaths(d, down[k], Old);
    }
    OtherPaths(d, mid, Exe);
    OtherPaths(d, mid, Old);
    if Downloads(a) {
      var install := InstallSteps(mid, a);
      assert Steps(d, a) == down + install;
      forall k | 0 <= k < |down + install| ensures Whole((down + install)[k], known) {
        assert k >= |down| ==> (down + install)[k] == install[k - |down|];
      }
    }
  }

  lemma {:induction false} RunKeepsWhole(d: Files, attempts: seq<Attempt>, known: set<Binary>)
    requires Whole(d, known) && Releases(attempts) <= known
    ensures AllWhole(AllSteps(d, attempts), known)
    decreases |attempts|
  {
    if attempts != [] {
      var e := End(d, Steps(d, attempts[0]));
      AttemptKeepsWhole(d, attempts[0], known);
      RunKeepsWhole(e, attempts[1..], known);
      hide Steps, Whole;
    }
  }

  lemma {:induction false} RunRecoverableIff(d: Files, attempts: seq<Attempt>)
    requires Recoverable(d)
    ensures AllRecoverable(AllSteps(d, attempts)) <==> CarefulRun(d, attempts)
    decreases |attempts|
  {
    if attempts != [] {
      var steps := Steps(d, attempts[0]);
      var rest := AllSteps(End(d, steps), attempts[1..]);
      AttemptKeepsBinaryIff(d, attempts[0]);
      RecoverableJoin(steps, rest);
      if Careful(d, attempts[0]) {
        RunRecoverableIff(End(d, steps), attempts[1..]);
      }
    }
  }

  /** A whole binary, one there at the start or one downloaded completely, is at one of the two places. */
  predicate Holds(d: Files, known: set<Binary>) {
    (Exe in d && d[Exe] in known) || (Old in d && d[Old] in known)
  }

  /**
   Over any attempts, a whole binary is always there if and only if the old one is never
   cleared while the executable is missing; and nothing but whole binaries is ever there.
   */
  lemma RunKeepsBinaryIff(d: Files, attempts: seq<Attempt>, known: set<Binary>)
    requires Recoverable(d) && Whole(d, known)
    ensures var (steps, all) := (AllSteps(d, attempts), known + Releases(attempts));
            && AllWhole(steps, all)
            && ((forall k :: 0 <= k < |steps| ==> Holds(steps[k], all)) <==> CarefulRun(d, attempts))
  {
    RunKeepsWhole(d, attempts, known + Releases(attempts));
    RunRecoverableIff(d, attempts);
  }

  lemma RecoverableJoin(s: seq<Files>, t: seq<Files>)
    ensures AllRecoverable(s + t) <==> AllRecoverable(s) && AllRecoverable(t)
  {
    if AllRecoverable(s + t) {
      forall k | 0 <= k < |s| ensures Recoverable(s[k]) {
        assert (s + t)[k] == s[k];
      }
      forall k | 0 <= k < |t| ensures Recoverable(t[k]) {
        assert (s + t)[|s| + k] == t[k];
      }
    }
  }

  /** A second attempt after a failed roll back destroys the only binary left. */
  lemma StrandedThenLost(d: Files, a: Attempt, b: Attempt)
    requires Exe in d && Stranded(d, a) && Downloads(b) && b.removes
    ensures var e := DiskAfter(d, [a, b]); Exe !in e && Old !in e
  {
    Outcome(d, a);
    var mid := End(d, Steps(d, a));
    assert [a, b][1..] == [b];
    assert DiskAfter(d, [a, b]) == DiskAfter(mid, [b]);
    assert [b][1..] == [];
    assert DiskAfter(mid, [b]) == End(mid, Steps(mid, b));
    DownloadEnds(mid, b);
    var down := DownloadSteps(mid, b);
    hide DownloadSteps, Concat;
    OtherPaths(mid, End(mid, down), Exe);
  }
}
