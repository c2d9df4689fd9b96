/** `bop restore`: from a snapshot ID to the repository that holds the snapshot. */
module Routing {
  import opened Core
  import opened Events
  import opened Pipeline
  import opened Traces

  // ---- The lookup ----

  /** The snapshots table; a listing of one host's rows may fail. */
  class SnapshotTable {
    const rows: seq<Snapshot>
    const unreadable: set<string>

    constructor (rows: seq<Snapshot>, unreadable: set<string>)
      ensures this.rows == rows && this.unreadable == unreadable
    {
      this.rows, this.unreadable := rows, unreadable;
    }

    /** The host's rows, in whatever order the database has equal timestamps in. */
    method ListSnapshots(host: string) returns (snaps: Option<seq<Snapshot>>)
      ensures snaps.None? <==> host in unreadable
      ensures snaps.Some? ==> forall s :: s in snaps.value <==> s in rows && s.host == host
    {
      if host in unreadable {
        return None;
      }
      var found := [];
      for i := 0 to |rows|
        invariant forall s :: s in found <==> s in rows[..i] && s.host == host
      {
        assert rows[..i + 1] == rows[..i] + [rows[i]];
        if rows[i].host == host {
          found := [rows[i]] + found;
        }
      }
      assert rows[..|rows|] == rows;
      return Some(found);
    }
  }

  datatype HostLookup = Unreadable | Ambiguous(found: seq<string>) | NoHost | Host(host: string)

  ghost predicate Has(rows: seq<Snapshot>, host: string, prefix: string) {
    exists s :: s in rows && s.host == host && prefix <= s.id
  }

  /** The inventory hosts with a snapshot whose ID starts with `prefix`. */
  ghost function HostsOf(rows: seq<Snapshot>, hosts: set<string>, prefix: string): set<string> {
    set h | h in hosts && Has(rows, h, prefix)
  }

  function SetOf<T>(s: seq<T>): set<T> {
    set x | x in s
  }

  /** What a lookup can come to, whatever the order of the walk. */
  ghost predicate IsLookup(rows: seq<Snapshot>, hosts: set<string>, unreadable: set<string>, prefix: string,
                           r: HostLookup) {
    var held := HostsOf(rows, hosts, prefix);
    match r
    case Unreadable => hosts * unreadable != {}
    case NoHost => hosts * unreadable == {} && held == {}
    case Host(h) => hosts * unreadable == {} && held == {h}
    case Ambiguous(found) => hosts * unreadable == {} && SetOf(found) == held && |held| > 1
  }

  lemma {:induction false} DistinctCount(s: seq<string>)
    requires Distinct(s)
    ensures |SetOf(s)| == |s|
  {
    if s == [] {
    } else {
      var init := s[..|s| - 1];
      DistinctCount(init);
      assert SetOf(s) == SetOf(init) + {s[|s| - 1]};
    }
  }

  /** `hosts` is the inventory in the order its map happens to be walked. */
  method SnapshotHost(table: SnapshotTable, hosts: seq<string>, prefix: string) returns (r: HostLookup)
    requires Distinct(hosts)
    ensures IsLookup(table.rows, SetOf(hosts), table.unreadable, prefix, r)
  {
    var found := [];
    var i := 0;
    while i < |hosts|
      invariant i <= |hosts|
      invariant Distinct(found)
      invariant forall h :: h in found <==> h in hosts[..i] && Has(table.rows, h, prefix)
      invariant forall h :: h in hosts[..i] ==> h !in table.unreadable
    {
      var host := hosts[i];
      var snaps := table.ListSnapshots(host);
      assert hosts[..i + 1] == hosts[..i] + [host];
      if snaps.None? {
        assert host in SetOf(hosts) * table.unreadable;
        return Unreadable;
      }
      var matched := MatchesAny(snaps.value, prefix);
      assert matched <==> Has(table.rows, host, prefix);
      if matched {
        found := found + [host];
      }
      i := i + 1;
    }
    assert hosts[..i] == hosts;
    DistinctCount(found);
    assert SetOf(found) == HostsOf(table.rows, SetOf(hosts), prefix);
    r := if |found| > 1 then Ambiguous(found) else if |found| == 0 then NoHost else Host(found[0]);
    assert |found| == 1 ==> found == [found[0]];
  }

  /** The inner loop: up to the first snapshot that matches. */
  method MatchesAny(snaps: seq<Snapshot>, prefix: string) returns (matched: bool)
    ensures matched <==> exists s :: s in snaps && prefix <= s.id
  {
    for i := 0 to |snaps|
      invariant forall s :: s in snaps[..i] ==> !(prefix <= s.id)
    {
      assert snaps[..i + 1] == snaps[..i] + [snaps[i]];
      if prefix <= snaps[i].id {
        return true;
      }
    }
    assert snaps[..|snaps|] == snaps;
    return false;
  }

  /** Equal, up to the order in which an ambiguous answer names its hosts. */
  predicate SameAnswer(a: HostLookup, b: HostLookup) {
    a == b || (a.Ambiguous? && b.Ambiguous? && SetOf(a.found) == SetOf(b.found))
  }

  /** Two walks over the same inventory, in whatever orders, give the same answer. */
  lemma OneLookup(rows: seq<Snapshot>, hosts: set<string>, unreadable: set<string>, prefix: string, a: HostLookup,
                  b: HostLookup)
    requires IsLookup(rows, hosts, unreadable, prefix, a) && IsLookup(rows, hosts, unreadable, prefix, b)
    ensures SameAnswer(a, b)
  {
    if a.Host? && b.Host? {
      assert a.host in {b.host};
    }
  }

  // ---- The whole command ----

  /** The repository a restore may read from; None when it reports an error instead. */
  ghost predicate IsRoute(rows: seq<Snapshot>, unreadable: set<string>, inventory: Inventory, defaultStorage: Provider,
                          storages: map<string, Provider>, snapshotId: string, hostFlag: string, sp: Option<Provider>)
  {
    var held := HostsOf(rows, inventory.Keys, snapshotId);
    if hostFlag != "" then sp == StorageOf(inventory, defaultStorage, storages, hostFlag)
    else if inventory.Keys * unreadable != {} || |held| > 1 then sp == None
    else if held == {} || held == {""} then sp == Some(defaultStorage)
    else forall h :: h in held ==> sp == StorageOf(inventory, defaultStorage, storages, h)
  }

  method Route(table: SnapshotTable, inventory: Inventory, hosts: seq<string>, defaultStorage: Provider,
               storages: map<string, Provider>, snapshotId: string, hostFlag: string) returns (sp: Option<Provider>)
    requires SetOf(hosts) == inventory.Keys && Distinct(hosts)
    ensures IsRoute(table.rows, table.unreadable, inventory, defaultStorage, storages, snapshotId, hostFlag, sp)
  {
    var host := hostFlag;
    if host == "" {
      var lookup := SnapshotHost(table, hosts, snapshotId);
      match lookup
      case Unreadable =>
        return None;
      case Ambiguous(_) =>
        return None;
      case NoHost =>
      case Host(h) =>
        host := h;
    }
    sp := Some(defaultStorage);
    if host != "" {
      sp := StorageOf(inventory, defaultStorage, storages, host);
    }
  }

  /** The repository of a host: its named one, the default one if its entry names none, and none if the host or
      the name is unknown. */
  lemma StorageOfHost(inventory: Inventory, defaultStorage: Provider, storages: map<string, Provider>, host: string)
    ensures
      var sp := StorageOf(inventory, defaultStorage, storages, host);
      && (host !in inventory ==> sp == None)
      && (host in inventory && inventory[host].storage == "" ==> sp == Some(defaultStorage))
      && (host in inventory && inventory[host].storage != "" ==>
          sp == if inventory[host].storage in storages then Some(storages[inventory[host].storage]) else None)
  {
  }

  /** Without a flag, matching snapshots of two inventory hosts, or a host that cannot be read, end the
      command; the flag decides if it is given. */
  lemma RouteRefuses(rows: seq<Snapshot>, unreadable: set<string>, inventory: Inventory, defaultStorage: Provider,
                     storages: map<string, Provider>, id: string, flag: string, sp: Option<Provider>, a: Snapshot,
                     b: Snapshot)
    requires IsRoute(rows, unreadable, inventory, defaultStorage, storages, id, flag, sp)
    requires flag != "" || (a.host in inventory && a.host in unreadable)
      || (a in rows && b in rows && id <= a.id && id <= b.id && a.host in inventory && b.host in inventory
          && a.host != b.host)
    ensures sp == if flag != "" then StorageOf(inventory, defaultStorage, storages, flag) else None
  {
    var held := HostsOf(rows, inventory.Keys, id);
    if flag == "" && a.host in unreadable && a.host in inventory {
      assert a.host in inventory.Keys * unreadable;
    } else if flag == "" {
      assert Has(rows, a.host, id) && Has(rows, b.host, id);
      assert {a.host, b.host} <= held;
      FewerMembers({a.host, b.host}, held);
    }
  }

  lemma FewerMembers(a: set<string>, b: set<string>)
    requires a <= b
    ensures |a| <= |b|
  {
    assert b == a + (b - a);
  }

  /** With every host readable: one inventory host whose snapshot matches alone decides, and with none the default
      repository is read. */
  lemma RouteFollows(rows: seq<Snapshot>, unreadable: set<string>, inventory: Inventory, defaultStorage: Provider,
                     storages: map<string, Provider>, id: string, sp: Option<Provider>, host: string)
    requires IsRoute(rows, unreadable, inventory, defaultStorage, storages, id, "", sp)
    requires inventory.Keys !! unreadable && host != ""
    requires forall s :: s in rows && id <= s.id && s.host in inventory ==> s.host == host
    ensures sp == if host in inventory && (exists s :: s in rows && id <= s.id && s.host == host)
                  then StorageOf(inventory, defaultStorage, storages, host) else Some(defaultStorage)
  {
    var held := HostsOf(rows, inventory.Keys, id);
    if host in inventory && (exists s :: s in rows && id <= s.id && s.host == host) {
      assert Has(rows, host, id);
      assert held == {host};
    } else {
      assert held == {};
    }
  }

  // ---- Every recorded snapshot is found where it was stored ----

  /** A job that was marked in_progress, the outcomes of its pipeline and whether it verifies. */
  datatype Run = Run(job: Job, outcome: PipelineOutcome, verify: bool)

  /** Any number of jobs, one after the other, with one inventory. */
  function AfterRuns(w: World, inventory: Inventory, defaultStorage: Provider, storages: map<string, Provider>,
                     runs: seq<Run>): World
    decreases |runs|
  {
    if runs == [] then w
    else
      var run := runs[0];
      var sp := StorageOf(inventory, defaultStorage, storages, run.job.host);
      var next :=
        if sp.None? then w
        else AfterJob(w, inventory[run.job.host], run.job, sp.value, run.outcome, run.verify);
      AfterRuns(next, inventory, defaultStorage, storages, runs[1..])
  }

  const NEW_WORLD := World([], [], {}, {}, 0, [], [])

  ghost predicate DistinctIds(rows: seq<Snapshot>) {
    forall i, j :: 0 <= i < j < |rows| ==> rows[i].id != rows[j].id
  }

  /** Every row's snapshot is in the repository its host's backups live in. */
  ghost predicate Placed(w: World, inventory: Inventory, defaultStorage: Provider, storages: map<string, Provider>) {
    forall i :: 0 <= i < |w.snapshots| ==>
      var sp := StorageOf(inventory, defaultStorage, storages, w.snapshots[i].host);
      sp.Some? && (sp.value, w.snapshots[i].id) in w.stored
  }

  lemma {:induction false} RecordKeepsDistinct(rows: seq<Snapshot>, job: Job, attempts: seq<Attempt>)
    requires DistinctIds(rows)
    ensures DistinctIds(RecordAll(rows, job, attempts))
    decreases |attempts|
  {
    if attempts == [] {
    } else {
      RecordKeepsDistinct(RecordOne(rows, job, attempts[0].outcome), job, attempts[1..]);
    }
  }

  /** Over any number of jobs with an unchanged inventory, IDs stay unique and every recorded
      snapshot is in its host's repository. */
  lemma {:induction false} RunsKeepPlaced(w: World, inventory: Inventory, defaultStorage: Provider,
                                          storages: map<string, Provider>, runs: seq<Run>)
    requires DistinctIds(w.snapshots) && Placed(w, inventory, defaultStorage, storages)
    ensures
      var after := AfterRuns(w, inventory, defaultStorage, storages, runs);
      DistinctIds(after.snapshots) && Placed(after, inventory, defaultStorage, storages)
    decreases |runs|
  {
    if runs == [] {
    } else {
      var run := runs[0];
      var sp := StorageOf(inventory, defaultStorage, storages, run.job.host);
      if sp.None? {
        RunsKeepPlaced(w, inventory, defaultStorage, storages, runs[1..]);
      } else {
        var srv := inventory[run.job.host];
        var attempts := Attempted(srv, run.job, run.outcome);
        var next := AfterJob(w, srv, run.job, sp.value, run.outcome, run.verify);
        AfterJobFieldwise(w, srv, run.job, sp.value, run.outcome, run.verify);
        RecordKeepsDistinct(w.snapshots, run.job, attempts);
        RecordedIsStored(w.snapshots, w.stored, sp.value, run.job, attempts);
        RunsKeepPlaced(next, inventory, defaultStorage, storages, runs[1..]);
      }
    }
  }

  /** A full ID is found at its own host alone exactly when no other inventory host has a snapshot
      whose ID it is the beginning of. */
  lemma FullIdFindsItsHostIff(rows: seq<Snapshot>, hosts: set<string>, i: nat)
    requires i < |rows| && rows[i].host in hosts
    ensures HostsOf(rows, hosts, rows[i].id) == {rows[i].host}
       <==> forall j :: 0 <= j < |rows| && rows[i].id <= rows[j].id ==>
           rows[j].host == rows[i].host || rows[j].host !in hosts
  {
    var held := HostsOf(rows, hosts, rows[i].id);
    assert Has(rows, rows[i].host, rows[i].id) by {
      assert rows[i] in rows;
    }
    if held == {rows[i].host} {
      forall j | 0 <= j < |rows| && rows[i].id <= rows[j].id && rows[j].host in hosts
        ensures rows[j].host == rows[i].host
      {
        assert rows[j] in rows;
        assert rows[j].host in held;
      }
    }
  }

  /** IDs of one length are never ambiguous. */
  lemma EqualLengthsFindTheirHost(rows: seq<Snapshot>, hosts: set<string>, i: nat)
    requires i < |rows| && rows[i].host in hosts && DistinctIds(rows)
    requires forall j :: 0 <= j < |rows| ==> |rows[j].id| == |rows[i].id|
    ensures HostsOf(rows, hosts, rows[i].id) == {rows[i].host}
  {
    FullIdFindsItsHostIff(rows, hosts, i);
    forall j | 0 <= j < |rows| && rows[i].id <= rows[j].id
      ensures j == i
    {
      assert rows[j].id == rows[i].id;
    }
  }

  /** After any number of jobs, restoring a recorded snapshot by its full ID and without a host
      reads from its host's repository - the one that stored it - exactly unless the host's name is
      empty and its repository is not the default one. */
  lemma RestoreFindsWhatWasStoredIff(inventory: Inventory, defaultStorage: Provider, storages: map<string, Provider>,
                                     runs: seq<Run>, i: nat, sp: Option<Provider>)
    requires
      var rows := AfterRuns(NEW_WORLD, inventory, defaultStorage, storages, runs).snapshots;
      && i < |rows| && (forall j :: 0 <= j < |rows| ==> |rows[j].id| == |rows[i].id|)
      && IsRoute(rows, {}, inventory, defaultStorage, storages, rows[i].id, "", sp)
    ensures
      var w := AfterRuns(NEW_WORLD, inventory, defaultStorage, storages, runs);
      var host := w.snapshots[i].host;
      && (sp == StorageOf(inventory, defaultStorage, storages, host)
          <==> host != "" || StorageOf(inventory, defaultStorage, storages, "") == Some(defaultStorage))
      && (sp == StorageOf(inventory, defaultStorage, storages, host) ==>
          sp.Some? && (sp.value, w.snapshots[i].id) in w.stored)
  {
    var w := AfterRuns(NEW_WORLD, inventory, defaultStorage, storages, runs);
    RunsKeepPlaced(NEW_WORLD, inventory, defaultStorage, storages, runs);
    EqualLengthsFindTheirHost(w.snapshots, inventory.Keys, i);
    var host := w.snapshots[i].host;
    assert host in HostsOf(w.snapshots, inventory.Keys, w.snapshots[i].id);
    if host == "" {
      assert sp == Some(defaultStorage);
    } else {
      assert {host} != {""} by {
        assert host in {host};
      }
    }
  }

  /** A server whose name in the inventory is empty, with a repository of its own. */
  function UnnamedServer(policy: Policy): Inventory {
    map["" := Server("own", policy, None, {"files"})]
  }

  /** The exception is real: one successful backup of such a server is restored from the default
      repository, which does not hold it. */
  lemma UnnamedServerIsRoutedElsewhere(policy: Policy, job: Job)
    requires job.host == "" && job.plugin == "files"
    ensures
      var inventory, storages := UnnamedServer(policy), map["own" := "repository"];
      var out := PipelineOutcome(NotStored, true, Some([Attempt("data", GOOD_OUTCOME)]), true);
      var w := AfterRuns(NEW_WORLD, inventory, "default", storages, [Run(job, out, false)]);
      && |w.snapshots| == 1
      && IsRoute(w.snapshots, {}, inventory, "default", storages, w.snapshots[0].id, "", Some("default"))
      && w.stored == {("repository", w.snapshots[0].id)}
  {
    var inventory, storages := UnnamedServer(policy), map["own" := "repository"];
    var attempts := [Attempt("data", GOOD_OUTCOME)];
    var out := PipelineOutcome(NotStored, true, Some(attempts), true);
    var runs := [Run(job, out, false)];
    var w := AfterJob(NEW_WORLD, inventory[""], job, "repository", out, false);
    AfterJobFieldwise(NEW_WORLD, inventory[""], job, "repository", out, false);
    assert runs[1..] == [] && attempts[1..] == [];
    assert AfterRuns(NEW_WORLD, inventory, "default", storages, runs) == w;
    assert RecordAll([], job, attempts) == [] + [SnapshotOf(job, GOOD_OUTCOME)];
    assert StoreAll({}, "repository", attempts) == {("repository", "s")};
    var snap := SnapshotOf(job, GOOD_OUTCOME);
    assert w.snapshots == [snap];
    assert HostsOf(w.snapshots, inventory.Keys, snap.id) == {""} by {
      assert snap in w.snapshots;
      assert Has(w.snapshots, "", snap.id);
    }
    assert |{""}| == 1;
  }
}
