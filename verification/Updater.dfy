/** The updater: unpack a release, swap the `current` link, roll back, prune. */
module Updater {
  import opened Core
  import opened Decimal

  datatype Dir = Incomplete | Complete

  /** The installation: the directories under releases/, the `current` link and the link being
      prepared, each by the name of the release it points to. */
  datatype Disk = Disk(releases: map<string, Dir>, current: Option<string>, currentNew: Option<string>)

  const PARTIAL_SUFFIX := ".partial"

  predicate IsPartial(name: string) {
    |PARTIAL_SUFFIX| <= |name| && name[|name| - |PARTIAL_SUFFIX|..] == PARTIAL_SUFFIX
  }

  /** `current` is absent or names a completely unpacked release. */
  predicate Sound(d: Disk) {
    d.current.Some? ==> d.current.value in d.releases && d.releases[d.current.value] == Complete
  }

  ghost predicate SameExcept(a: map<string, Dir>, b: map<string, Dir>, names: set<string>) {
    forall n :: n !in names ==> (n in a <==> n in b) && (n in a ==> a[n] == b[n])
  }

  /** How the commands of one run end. A failed command aborts the run. */
  datatype Commands = Commands(
    busy: bool, downloaded: bool, partialRemoved: bool, made: bool, unpacked: bool, runs: bool,
    destRemoved: bool, moved: bool, linked: bool, swapped: bool, restarted: bool, healthy: bool,
    relinked: bool, swappedBack: bool, pruneFails: set<string>)

  datatype Result =
    | UpToDate | Busy | NotUnpacked | NotSwapped | RestartFailed | RolledBack | Unhealthy | PruneFailed | Deployed

  class Host {
    var disk: Disk
    var left: nat    // file system changes until the machine stops; none happens after that

    method Change(d: Disk)
      modifies this
      ensures if old(left) > 0 then disk == d && left == old(left) - 1 else disk == old(disk) && left == 0
    {
      if left > 0 {
        disk, left := d, left - 1;
      }
    }

    /** rm -rf: the directory is incomplete before it is gone. */
    method RemoveDir(name: string, works: bool) returns (ok: bool)
      modifies this
      ensures disk.current == old(disk).current && disk.currentNew == old(disk).currentNew
      ensures SameExcept(disk.releases, old(disk).releases, {name}) && left <= old(left)
      ensures ok <==> works || name !in old(disk).releases
      ensures ok && left > 0 ==> name !in disk.releases
      ensures name in old(disk).releases && old(left) == 1 ==>
          name in disk.releases && disk.releases[name] == Incomplete && left == 0
      ensures name !in old(disk).releases ==> disk == old(disk) && left == old(left)
    {
      if name !in disk.releases {
        return true;
      }
      Change(disk.(releases := disk.releases[name := Incomplete]));
      if works {
        Change(disk.(releases := disk.releases - {name}));
      }
      return works;
    }

    /** The archive unpacked into the partial directory, and the binary run once. */
    method Extract(tag: string, c: Commands) returns (ok: bool)
      modifies this
      ensures disk.current == old(disk).current && left <= old(left)
      ensures SameExcept(disk.releases, old(disk).releases, {tag + PARTIAL_SUFFIX})
      ensures ok == (
        (c.partialRemoved || tag + PARTIAL_SUFFIX !in old(disk).releases) && c.made && c.unpacked && c.runs)
      ensures ok && left > 0 ==>
        tag + PARTIAL_SUFFIX in disk.releases && disk.releases[tag + PARTIAL_SUFFIX] == Complete
      ensures tag + PARTIAL_SUFFIX in old(disk).releases && old(left) == 1 ==>
        tag + PARTIAL_SUFFIX in disk.releases && disk.releases[tag + PARTIAL_SUFFIX] == Incomplete && left == 0
    {
      var partial := tag + PARTIAL_SUFFIX;
      ok := RemoveDir(partial, c.partialRemoved);
      if !ok || !c.made {
        return false;
      }
      Change(disk.(releases := disk.releases[partial := Incomplete]));
      if !c.unpacked {
        return false;
      }
      Change(disk.(releases := disk.releases[partial := Complete]));
      ok := c.runs;
    }

    method Unpack(tag: string, c: Commands) returns (ok: bool)
      modifies this
      ensures disk.current == old(disk).current && left <= old(left)
      ensures SameExcept(disk.releases, old(disk).releases, {tag, tag + PARTIAL_SUFFIX})
      ensures ok == Unpacks(old(disk).releases, tag, c)
      ensures ok && left > 0 ==> disk.releases == Unpacked(old(disk).releases, tag)
      ensures tag + PARTIAL_SUFFIX in old(disk).releases && old(left) == 1 ==>
        tag + PARTIAL_SUFFIX in disk.releases && disk.releases[tag + PARTIAL_SUFFIX] == Incomplete && left == 0
    {
      assert |tag + PARTIAL_SUFFIX| != |tag|;
      ok := Extract(tag, c);
      if !ok {
        return false;
      }
      ok := RemoveDir(tag, c.destRemoved);
      if !ok || !c.moved {
        return false;
      }
      Change(disk.(releases := (disk.releases - {tag + PARTIAL_SUFFIX})[tag := Complete]));
    }

    /** swap_to: a new link is prepared and moved over the old one. */
    method SwapTo(name: string, linked: bool, moved: bool) returns (ok: bool)
      modifies this
      ensures ok == (linked && moved) && left <= old(left) && disk.releases == old(disk).releases
      ensures disk.current in {old(disk).current, Some(name)}
      ensures left > 0 && ok ==> disk.current == Some(name)
      ensures !ok || old(left) == 0 ==> disk.current == old(disk).current
    {
      if !linked {
        return false;
      }
      Change(disk.(currentNew := Some(name)));
      if !moved {
        return false;
      }
      Change(disk.(current := Some(name), currentNew := None));
      return true;
    }

    /** ls -1t without the partial directories: in whatever order. */
    method List() returns (names: seq<string>)
      ensures forall n :: n in names <==> n in disk.releases && !IsPartial(n)
      ensures Distinct(names)
    {
      var rest := disk.releases.Keys;
      names := [];
      while rest != {}
        invariant forall n :: n in names || (n in rest && !IsPartial(n)) <==> n in disk.releases && !IsPartial(n)
        invariant forall n :: n in names ==> n !in rest && !IsPartial(n)
        invariant Distinct(names)
        decreases |rest|
      {
        var n :| n in rest;
        rest := rest - {n};
        if !IsPartial(n) {
          names := names + [n];
        }
      }
    }

    /** Removes the old directories except the release now running and the one before it, up to the
        first that cannot be removed. */
    method Prune(old': seq<string>, tag: string, previous: string, fails: set<string>) returns (ok: bool)
      requires Distinct(old') && forall n :: n in old' ==> n in disk.releases
      modifies this
      ensures disk.current == old(disk).current && left <= old(left)
      ensures ok == Prunes(old', tag, previous, fails)
      ensures forall n :: n in {tag, previous} || n !in old' ==>
        && (n in disk.releases <==> n in old(disk).releases)
        && (n in disk.releases ==> disk.releases[n] == old(disk).releases[n])
      ensures ok && left > 0 ==> forall n :: n in disk.releases && n in old' ==> n in {tag, previous}
    {
      var i := 0;
      while i < |old'|
        invariant i <= |old'| && left <= old(left) && disk.current == old(disk).current
        invariant forall n :: n in old'[i..] ==> n in disk.releases
        invariant forall n :: n in old'[..i] ==> n in {tag, previous} || n !in fails
        invariant forall n :: n in {tag, previous} || n !in old'[..i] ==>
          && (n in disk.releases <==> n in old(disk).releases)
          && (n in disk.releases ==> disk.releases[n] == old(disk).releases[n])
        invariant left > 0 ==> forall n :: n in disk.releases && n in old'[..i] ==> n in {tag, previous}
      {
        var name := old'[i];
        assert old'[..i + 1] == old'[..i] + [name] && old'[i..] == [name] + old'[i + 1..];
        if name != tag && name != previous {
          var removed := RemoveDir(name, name !in fails);
          if !removed {
            return false;
          }
        }
        i := i + 1;
      }
      assert old'[..i] == old';
      return true;
    }

    /** Everything after a healthy restart. `listed` is what ls answers. */
    method PruneOld(tag: string, keep: nat, kept: string, fails: set<string>) returns (ok: bool,
                    ghost listed: seq<string>)
      modifies this
      ensures disk.current == old(disk).current && left <= old(left)
      ensures Distinct(listed) && forall n :: n in listed <==> n in old(disk).releases && !IsPartial(n)
      ensures ok == PipelineEndsWell(listed, keep, tag, kept, fails)
      ensures forall n :: n in {tag, kept} ==>
        && (n in disk.releases <==> n in old(disk).releases)
        && (n in disk.releases ==> disk.releases[n] == old(disk).releases[n])
      ensures ok && left > 0 ==> IsPruned(old(disk).releases, disk.releases, listed, keep, tag, kept)
    {
      var names := List();
      listed := names;
      OldAndNew(names, keep);
      // grep selects nothing when every directory looks partial; with pipefail that fails the script.
      if names == [] {
        return false, listed;
      }
      ok := Prune(Old(names, keep), tag, kept, fails);
    }

    /** One run of the script for the channel's newest release. `listed` is the answer of ls, if the
        run gets that far. */
    method Update(tag: string, keep: nat, c: Commands) returns (r: Result, ghost listed: seq<string>)
      modifies this
      ensures Ran(old(disk), Run(tag, keep, c, old(left)), End(disk, left, r, listed))
    {
      listed := [];
      var previous := disk.current;
      assert |tag + PARTIAL_SUFFIX| > |tag|;
      if previous == Some(tag) {
        return UpToDate, listed;
      }
      if c.busy {
        return Busy, listed;
      }
      if !c.downloaded {
        return NotUnpacked, listed;
      }
      var unpacked := Unpack(tag, c);
      if !unpacked {
        return NotUnpacked, listed;
      }
      var swapped := SwapTo(tag, c.linked, c.swapped);
      if !swapped {
        return NotSwapped, listed;
      }
      if !c.restarted {
        return RestartFailed, listed;
      }
      if !c.healthy {
        if previous.Some? {
          var back := SwapTo(previous.value, c.relinked, c.swappedBack);
          return if back then RolledBack else Unhealthy, listed;
        }
        return Unhealthy, listed;
      }
      var kept := if previous.Some? then previous.value else "none";
      var pruned;
      pruned, listed := PruneOld(tag, keep, kept, c.pruneFails);
      r := if pruned then Deployed else PruneFailed;
    }
  }

  // ---- What a run must come to ----

  /** A run for a tag, and after how many changes to the file system the machine stops. */
  datatype Run = Run(tag: string, keep: nat, commands: Commands, stops: nat)

  /** What a run leaves: the installation, the changes the machine had left (0 if it stopped), how the
      script ended, and what ls answered. */
  datatype End = End(disk: Disk, left: nat, result: Result, listed: seq<string>)

  ghost predicate Ran(d: Disk, run: Run, end: End) {
    var Run(tag, keep, c, stops) := run;
    var before := Unpacked(d.releases, tag);
    var previous := KeepPrevious(d);
    // Whenever the machine stops, the link is sound, unless it named the new tag's partial
    // directory: then the very first change breaks it.
    && (Sound(d) && d.current != Some(tag + PARTIAL_SUFFIX) ==> Sound(end.disk))
    && (Sound(d) && d.current == Some(tag + PARTIAL_SUFFIX) && !c.busy && c.downloaded && stops == 1 ==>
        !Sound(end.disk))
    && end.disk.current in {d.current, Some(tag)}
    // How the script ends follows from its commands alone.
    && end.result == ResultOf(d, tag, c, PipelineEndsWell(end.listed, keep, tag, previous, c.pruneFails))
    && (end.result in {UpToDate, Busy} ==> end.disk == d)
    // Unless the machine stops, the link is the new release after a swap, and the previous one
    // again after a failed health check whose rollback works.
    && (end.left > 0 ==>
          end.disk.current == if !Swaps(d, tag, c) || RollsBack(d, c) then d.current else Some(tag))
    // The running release and the one before it are never touched after the swap.
    && (end.left > 0 && Swaps(d, tag, c) ==>
          && (forall n :: n in {tag, previous} ==>
                (n in end.disk.releases <==> n in before) && (n in before ==> end.disk.releases[n] == before[n]))
          && (!c.restarted || !c.healthy ==> end.disk.releases == before))
    // A healthy run prunes: what is left is exactly the newest ones, these two, and the partial
    // directories.
    && (end.left > 0 && Swaps(d, tag, c) && c.restarted && c.healthy ==>
          && Distinct(end.listed) && (forall n :: n in end.listed <==> n in before && !IsPartial(n))
          && (end.result == Deployed ==> IsPruned(before, end.disk.releases, end.listed, keep, tag, previous)))
  }

  /** Removing a directory that is not there always works. */
  predicate Unpacks(releases: map<string, Dir>, tag: string, c: Commands) {
    && (c.partialRemoved || tag + PARTIAL_SUFFIX !in releases) && c.made && c.unpacked && c.runs
    && (c.destRemoved || tag !in releases) && c.moved
  }

  function Unpacked(releases: map<string, Dir>, tag: string): map<string, Dir> {
    (releases - {tag + PARTIAL_SUFFIX})[tag := Complete]
  }

  predicate Swaps(d: Disk, tag: string, c: Commands) {
    d.current != Some(tag) && !c.busy && c.downloaded && Unpacks(d.releases, tag, c) && c.linked && c.swapped
  }

  predicate RollsBack(d: Disk, c: Commands) {
    c.restarted && !c.healthy && d.current.Some? && c.relinked && c.swappedBack
  }

  function ResultOf(d: Disk, tag: string, c: Commands, prunes: bool): Result {
    if d.current == Some(tag) then UpToDate
    else if c.busy then Busy
    else if !c.downloaded || !Unpacks(d.releases, tag, c) then NotUnpacked
    else if !c.linked || !c.swapped then NotSwapped
    else if !c.restarted then RestartFailed
    else if !c.healthy then (if RollsBack(d, c) then RolledBack else Unhealthy)
    else if prunes then Deployed else PruneFailed
  }

  function KeepPrevious(d: Disk): string {
    if d.current.Some? then d.current.value else "none"
  }

  /** The listing after its newest `keep`. */
  function Old(listed: seq<string>, keep: nat): seq<string> {
    if keep < |listed| then listed[keep..] else []
  }

  function Newest(listed: seq<string>, keep: nat): seq<string> {
    if keep < |listed| then listed[..keep] else listed
  }

  /** No directory that is due cannot be removed. */
  predicate Prunes(old': seq<string>, tag: string, previous: string, fails: set<string>) {
    forall n :: n in old' ==> n in {tag, previous} || n !in fails
  }

  /** The last pipeline: some directory is listed at all, and none that is due cannot be removed. */
  predicate PipelineEndsWell(listed: seq<string>, keep: nat, tag: string, previous: string, fails: set<string>) {
    listed != [] && Prunes(Old(listed, keep), tag, previous, fails)
  }

  ghost predicate IsPruned(before: map<string, Dir>, after: map<string, Dir>, listed: seq<string>, keep: nat,
                           tag: string, previous: string)
  {
    && (forall n :: n in after <==> n in before && (IsPartial(n) || n in Newest(listed, keep) || n in {tag, previous}))
    && (forall n :: n in after ==> after[n] == before[n])
  }

  /** How a run ends, read off its commands: each result under its own condition. */
  lemma ResultsAre(d: Disk, tag: string, c: Commands, prunes: bool)
    ensures
      var result := ResultOf(d, tag, c, prunes);
      var due := d.current != Some(tag) && !c.busy;
      var unpacked := due && c.downloaded && (c.partialRemoved || tag + ".partial" !in d.releases) && c.made
        && c.unpacked && c.runs && (c.destRemoved || tag !in d.releases) && c.moved;
      var swapped := unpacked && c.linked && c.swapped;
      && (result == UpToDate <==> d.current == Some(tag))
      && (result == Busy <==> d.current != Some(tag) && c.busy)
      && (result == NotUnpacked <==> due && !unpacked)
      && (result == NotSwapped <==> unpacked && !swapped)
      && (result == RestartFailed <==> swapped && !c.restarted)
      && (result == RolledBack <==>
            swapped && c.restarted && !c.healthy && d.current.Some? && c.relinked && c.swappedBack)
      && (result == Unhealthy <==>
            swapped && c.restarted && !c.healthy && !(d.current.Some? && c.relinked && c.swappedBack))
      && (result == Deployed <==> swapped && c.restarted && c.healthy && prunes)
      && (result == PruneFailed <==> swapped && c.restarted && c.healthy && !prunes)
  {
  }

  /** A run ends like that; the pipeline that prunes ends well if anything is listed and every directory
      listed from position KEEP on can be removed or is one of the two to stay. */
  lemma ResultIs(d: Disk, run: Run, end: End)
    requires Ran(d, run, end)
    ensures
      var pruned := end.listed != [] && forall i :: run.keep <= i < |end.listed| ==>
        || end.listed[i] == run.tag || end.listed[i] !in run.commands.pruneFails
        || end.listed[i] == (if d.current.Some? then d.current.value else "none");
      end.result == ResultOf(d, run.tag, run.commands, pruned)
  {
    PrunesIff(end.listed, run.keep, run.tag, KeepPrevious(d), run.commands.pruneFails);
  }

  lemma PrunesIff(listed: seq<string>, keep: nat, tag: string, previous: string, fails: set<string>)
    ensures PipelineEndsWell(listed, keep, tag, previous, fails)
       <==> listed != [] && forall i :: keep <= i < |listed| ==>
           listed[i] == tag || listed[i] !in fails || listed[i] == previous
  {
    var old' := Old(listed, keep);
    assert forall i :: keep <= i < |listed| ==> listed[i] == old'[i - keep];
    assert forall i :: 0 <= i < |old'| ==> old'[i] == listed[keep + i];
  }

  /** The link after a run that was not stopped: the release that was running is running again exactly after
      a rollback that worked, and was never left after the early ends; the new one runs after all others,
      also after a failed restart and a health check whose rollback failed. */
  lemma LinkIs(d: Disk, run: Run, end: End)
    requires Ran(d, run, end) && end.left > 0
    ensures end.disk.current
         == if end.result in {UpToDate, Busy, NotUnpacked, NotSwapped, RolledBack} then d.current else Some(run.tag)
  {
    var prunes := PipelineEndsWell(end.listed, run.keep, run.tag, KeepPrevious(d), run.commands.pruneFails);
    ResultsAre(d, run.tag, run.commands, prunes);
  }

  /** A failed health check with a previous release and a working rollback restores that release. */
  lemma HealthCheckRollsBack(d: Disk, run: Run, end: End)
    requires Ran(d, run, end) && end.left > 0 && d.current.Some? && d.current != Some(run.tag)
    requires
      var c := run.commands;
      && !c.busy && c.downloaded && (c.partialRemoved || run.tag + ".partial" !in d.releases) && c.made && c.unpacked
      && c.runs && (c.destRemoved || run.tag !in d.releases) && c.moved && c.linked && c.swapped
      && c.restarted && !c.healthy && c.relinked && c.swappedBack
    ensures end.result == RolledBack && end.disk.current == d.current
    ensures end.disk.releases == (d.releases - {run.tag + ".partial"})[run.tag := Complete]
  {
  }

  /** The releases after a run that was not stopped, once the link was swapped: without pruning the new one is
      added and its partial directory gone; a deployment removes just the listed ones from position KEEP on,
      except the two that run now and ran before. */
  lemma ReleasesAre(d: Disk, run: Run, end: End)
    requires Ran(d, run, end) && end.left > 0
    ensures
      var before := (d.releases - {run.tag + ".partial"})[run.tag := Complete];
      && (end.result in {UpToDate, Busy} ==> end.disk.releases == d.releases)
      && (end.result in {RestartFailed, RolledBack, Unhealthy} ==> end.disk.releases == before)
      && (end.result == Deployed ==>
          && (forall n :: n in end.disk.releases ==> n in before && end.disk.releases[n] == before[n])
          && (forall n :: n in before && (IsPartial(n) || n == run.tag || d.current == Some(n)) ==>
                n in end.disk.releases)
          && (forall i :: 0 <= i < |end.listed| && i < run.keep ==> end.listed[i] in end.disk.releases)
          && (forall i :: run.keep <= i < |end.listed| ==>
                || end.listed[i] == run.tag || end.listed[i] == (if d.current.Some? then d.current.value else "none")
                || end.listed[i] !in end.disk.releases))
  {
    var prunes := PipelineEndsWell(end.listed, run.keep, run.tag, KeepPrevious(d), run.commands.pruneFails);
    ResultsAre(d, run.tag, run.commands, prunes);
    if end.result == Deployed {
      OldAndNew(end.listed, run.keep);
      PositionsAre(end.listed, run.keep);
    }
  }

  lemma PositionsAre(listed: seq<string>, keep: nat)
    ensures forall i :: 0 <= i < |listed| && i < keep ==> listed[i] in Newest(listed, keep) && listed[i] in listed
    ensures forall i :: keep <= i < |listed| ==> listed[i] in Old(listed, keep) && listed[i] in listed
  {
    var newest, old' := Newest(listed, keep), Old(listed, keep);
    assert forall i :: 0 <= i < |listed| && i < keep ==> listed[i] == newest[i];
    assert forall i :: keep <= i < |listed| ==> listed[i] == old'[i - keep];
  }

  lemma OldAndNew(listed: seq<string>, keep: nat)
    ensures listed == Newest(listed, keep) + Old(listed, keep)
    ensures Distinct(listed) ==> Distinct(Old(listed, keep)) && forall n :: n in Newest(listed, keep) ==>
        n !in Old(listed, keep)
  {
    var newest, old' := Newest(listed, keep), Old(listed, keep);
    assert listed == newest + old';
    assert forall i :: 0 <= i < |newest| ==> listed[i] == newest[i];
    assert forall i :: 0 <= i < |old'| ==> listed[|newest| + i] == old'[i];
  }

  /** Pruning keeps the running release and the one before it as they were, and leaves at most
      KEEP + 2 releases. */
  lemma PrunedKeepsTwoAndFew(before: map<string, Dir>, after: map<string, Dir>, listed: seq<string>, keep: nat,
                             tag: string, previous: string)
    requires IsPruned(before, after, listed, keep, tag, previous)
    ensures forall n :: n in {tag, previous} && n in before ==> n in after && after[n] == before[n]
    ensures |set n | n in after && !IsPartial(n)| <= keep + 2
  {
    var allowed := Newest(listed, keep) + [tag, previous];
    AtMost(allowed, set n | n in after && !IsPartial(n));
  }

  lemma HasFirst(s: seq<string>)
    requires s != []
    ensures exists n :: n in s
  {
    assert s[0] in s;
  }

  /** The first release of a host, if its tag looks partial: it is deployed, and the run still fails. */
  lemma OnlyPartialFails(d: Disk, run: Run, end: End)
    requires d == Disk(map[], None, None) && IsPartial(run.tag) && Ran(d, run, end) && end.left > 0
    requires Swaps(d, run.tag, run.commands) && run.commands.restarted && run.commands.healthy
    ensures end.result == PruneFailed && end.disk.current == Some(run.tag)
  {
    assert forall n :: n in Unpacked(d.releases, run.tag) ==> n == run.tag;
    if end.listed != [] {
      HasFirst(end.listed);
    }
  }

  /** So a deployment leaves the new release and the one before it complete: the rollback target
      survives every run. */
  lemma RollbackTargetSurvives(d: Disk, after: map<string, Dir>, tag: string, keep: nat, listed: seq<string>)
    requires Sound(d) && d.current != Some(tag + PARTIAL_SUFFIX) && d.current.Some?
    requires IsPruned(Unpacked(d.releases, tag), after, listed, keep, tag, KeepPrevious(d))
    ensures d.current.value in after && after[d.current.value] == Complete
    ensures tag in after && after[tag] == Complete
  {
  }

  lemma {:induction false} AtMost(s: seq<string>, names: set<string>)
    requires forall n :: n in names ==> n in s
    ensures |names| <= |s|
    decreases |s|
  {
    if s != [] {
      AtMost(s[1..], names - {s[0]});
    } else {
      assert names == {};
    }
  }

  // ---- Tags ----

  predicate IsSuffixChar(c: char) {
    IsDigit(c) || 'A' <= c <= 'Z' || 'a' <= c <= 'z' || c == '.'
  }

  predicate IsTagSuffix(s: string) {
    s == "" || (|s| > 1 && s[0] == '-' && forall i :: 0 < i < |s| ==> IsSuffixChar(s[i]))
  }

  /** A number, as many more with a dot before each, and a suffix. */
  predicate IsNumbers(s: string, more: nat) {
    var run := DigitRun(s);
    && run > 0
    && if more == 0 then IsTagSuffix(s[run..]) else run < |s| && s[run] == '.' && IsNumbers(s[run + 1..], more - 1)
  }

  /** The tags the script accepts: v, three numbers, optionally a dash and a suffix. */
  predicate ValidTag(tag: string) {
    tag != "" && tag[0] == 'v' && IsNumbers(tag[1..], 2)
  }

  lemma SuffixHasDash(s: string, k: nat)
    requires k < |s| && IsTagSuffix(s[k..])
    ensures '-' in s
  {
    assert s[k..][0] == s[k];
  }

  lemma {:induction false} EndsWithDigit(s: string, more: nat)
    requires IsNumbers(s, more) && '-' !in s
    ensures s != "" && IsDigit(s[|s| - 1])
    decreases more
  {
    var run := DigitRun(s);
    if more == 0 {
      if run < |s| {
        SuffixHasDash(s, run);
      }
      assert s[..run][run - 1] == s[|s| - 1];
    } else {
      EndsWithDigit(s[run + 1..], more - 1);
    }
  }

  /** A tag without a dash, as the stable channel has them, never looks like a partial directory. */
  lemma StableTagsAreNotPartial(tag: string)
    requires ValidTag(tag) && '-' !in tag
    ensures !IsPartial(tag)
  {
    EndsWithDigit(tag[1..], 2);
    if IsPartial(tag) {
      PartialEnd(tag);
    }
  }

  lemma PartialEnd(name: string)
    requires IsPartial(name)
    ensures name[|name| - 1] == 'l'
  {
    assert name[|name| - |PARTIAL_SUFFIX|..][|PARTIAL_SUFFIX| - 1] == name[|name| - 1];
  }

  lemma LastNumber(d: string, suffix: string)
    requires d != "" && AllDigits(d) && IsTagSuffix(suffix)
    ensures IsNumbers(d + suffix, 0)
  {
    DigitRunOf(d, suffix);
    assert (d + suffix)[|d|..] == suffix;
  }

  lemma DottedNumber(d: string, rest: string, more: nat)
    requires d != "" && AllDigits(d) && IsNumbers(rest, more)
    ensures IsNumbers(d + ("." + rest), more + 1)
  {
    DigitRunOf(d, "." + rest);
    assert (d + ("." + rest))[|d| + 1..] == rest;
  }

  function ReleaseTag(major: string, minor: string, patch: string, suffix: string): string {
    "v" + (major + ("." + (minor + ("." + (patch + suffix)))))
  }

  lemma ReleaseTagsAreValid(major: string, minor: string, patch: string, suffix: string)
    requires major != "" && minor != "" && patch != "" && AllDigits(major) && AllDigits(minor) && AllDigits(patch)
    requires IsTagSuffix(suffix)
    ensures ValidTag(ReleaseTag(major, minor, patch, suffix))
  {
    LastNumber(patch, suffix);
    DottedNumber(minor, patch + suffix, 0);
    var rest := minor + ("." + (patch + suffix));
    DottedNumber(major, rest, 1);
    assert ("v" + (major + ("." + rest)))[1..] == major + ("." + rest);
  }

  lemma SplitNumber(s: string, more: nat) returns (number: string, rest: string)
    requires IsNumbers(s, more)
    ensures number != "" && AllDigits(number)
    ensures if more == 0 then s == number + rest && IsTagSuffix(rest)
            else s == number + ("." + rest) && IsNumbers(rest, more - 1)
  {
    var run := DigitRun(s);
    number := s[..run];
    if more == 0 {
      rest := s[run..];
    } else {
      rest := s[run + 1..];
      assert s == s[..run] + ([s[run]] + s[run + 1..]);
    }
  }

  /** The tags that are accepted are exactly those of the pattern: v, three numbers with dots between them, and
      at most a dash with letters, digits and dots after it. */
  lemma ValidTagIff(tag: string)
    ensures ValidTag(tag) <==> exists major, minor, patch, suffix ::
        && major != "" && minor != "" && patch != "" && AllDigits(major) && AllDigits(minor) && AllDigits(patch)
        && (suffix == "" ||
            (|suffix| > 1 && suffix[0] == '-' && forall i :: 0 < i < |suffix| ==>
               '0' <= suffix[i] <= '9' || 'A' <= suffix[i] <= 'Z' || 'a' <= suffix[i] <= 'z' || suffix[i] == '.'))
        && tag == ReleaseTag(major, minor, patch, suffix)
  {
    if ValidTag(tag) {
      var major, r1 := SplitNumber(tag[1..], 2);
      var minor, r2 := SplitNumber(r1, 1);
      var patch, suffix := SplitNumber(r2, 0);
      assert tag == "v" + tag[1..];
      assert tag == ReleaseTag(major, minor, patch, suffix);
    }
    forall major, minor, patch, suffix |
      major != "" && minor != "" && patch != "" && AllDigits(major) && AllDigits(minor) && AllDigits(patch)
      && IsTagSuffix(suffix) && tag == ReleaseTag(major, minor, patch, suffix)
      ensures ValidTag(tag)
    {
      ReleaseTagsAreValid(major, minor, patch, suffix);
    }
  }

  lemma AppendToSuffix(head: string, major: string, minor: string, patch: string, suffix: string, more: string)
    ensures head + (major + ("." + (minor + ("." + (patch + suffix))))) + more
         == head + (major + ("." + (minor + ("." + (patch + (suffix + more))))))
  {
    var a := patch + suffix;
    var b := minor + ("." + a);
    var c := major + ("." + b);
    assert a + more == patch + (suffix + more);
    assert b + more == minor + ("." + (a + more));
    assert c + more == major + ("." + (b + more));
  }

  /** A prerelease can be called like another one's partial directory. */
  lemma PrereleaseTagsCanBePartial(major: string, minor: string, patch: string)
    requires major != "" && minor != "" && patch != "" && AllDigits(major) && AllDigits(minor) && AllDigits(patch)
    ensures
      var tag := ReleaseTag(major, minor, patch, "-rc");
      ValidTag(tag) && ValidTag(tag + PARTIAL_SUFFIX) && IsPartial(tag + PARTIAL_SUFFIX)
  {
    ReleaseTagsAreValid(major, minor, patch, "-rc");
    ReleaseTagsAreValid(major, minor, patch, "-rc" + PARTIAL_SUFFIX);
    var tag := ReleaseTag(major, minor, patch, "-rc");
    AppendToSuffix("v", major, minor, patch, "-rc", PARTIAL_SUFFIX);
    assert (tag + PARTIAL_SUFFIX)[|tag|..] == PARTIAL_SUFFIX;
  }

  // ---- Any number of runs ----

  /** What the runs so far have left installed. */
  function Installed(d: Disk, ends: seq<End>): Disk {
    if ends == [] then d else ends[|ends| - 1].disk
  }

  /** Each run starts from what the one before it left, and each leaves a sound link. */
  ghost predicate RanInTurn(d: Disk, runs: seq<Run>, ends: seq<End>)
    decreases |runs|
  {
    && |runs| == |ends|
    && (runs == [] ||
        (var n := |runs| - 1;
         RanInTurn(d, runs[..n], ends[..n]) && Ran(Installed(d, ends[..n]), runs[n], ends[n]) && Sound(ends[n].disk)))
  }

  /** The link is sound and names no directory that looks partial. */
  predicate Settled(d: Disk) {
    Sound(d) && (d.current.Some? ==> !IsPartial(d.current.value))
  }

  lemma OneMore(d: Disk, runs: seq<Run>, ends: seq<End>, run: Run, end: End)
    requires RanInTurn(d, runs, ends) && Ran(Installed(d, ends), run, end) && Sound(end.disk)
    ensures RanInTurn(d, runs + [run], ends + [end]) && Installed(d, ends + [end]) == end.disk
  {
    assert (runs + [run])[..|runs|] == runs && (ends + [end])[..|ends|] == ends;
  }

  /** Runs one after the other, each cut off after any number of changes: as long as no tag looks
      like a partial directory, the link is sound after every one of them, wherever it stopped. */
  method UpdateAll(host: Host, runs: seq<Run>) returns (ghost ends: seq<End>)
    requires (forall i :: 0 <= i < |runs| ==> !IsPartial(runs[i].tag)) && Settled(host.disk)
    modifies host
    ensures Settled(host.disk)
    ensures RanInTurn(old(host.disk), runs, ends) && host.disk == Installed(old(host.disk), ends)
    decreases |runs|
  {
    if runs == [] {
      return [];
    }
    var before, last := runs[..|runs| - 1], runs[|runs| - 1];
    assert runs == before + [last];
    ghost var ends' := UpdateAll(host, before);
    ends := UpdateNext(host, old(host.disk), before, ends', last);
  }

  method UpdateNext(host: Host, ghost d: Disk, ghost runs: seq<Run>, ghost ends: seq<End>, run: Run)
    returns (ghost ends': seq<End>)
    requires !IsPartial(run.tag) && Settled(host.disk)
    requires RanInTurn(d, runs, ends) && host.disk == Installed(d, ends)
    modifies host
    ensures Settled(host.disk)
    ensures RanInTurn(d, runs + [run], ends') && host.disk == Installed(d, ends')
  {
    host.left := run.stops;
    PartialLooksPartial(run.tag);
    var r, listed := host.Update(run.tag, run.keep, run.commands);
    ghost var end := End(host.disk, host.left, r, listed);
    OneMore(d, runs, ends, run, end);
    ends' := ends + [end];
  }

  lemma PartialLooksPartial(tag: string)
    ensures IsPartial(tag + PARTIAL_SUFFIX)
  {
    assert (tag + PARTIAL_SUFFIX)[|tag|..] == PARTIAL_SUFFIX;
  }
}
