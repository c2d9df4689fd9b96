/** What one run of the backup pipeline does, as a function of the outcomes of the calls
    it makes: which step each resource stops at, which events, snapshots and errors result. */
module Pipeline {
  import opened Core
  import opened Events

  type Provider = string

  datatype Server = Server(storage: string, retention: Policy, verification: Option<bool>, plugins: set<string>)

  type Inventory = map<string, Server>

  /** The repository a host's backups live in: the named one its entry selects, else the default. */
  function StorageOf(inventory: Inventory, defaultStorage: Provider, storages: map<string, Provider>,
                     host: string): Option<Provider> {
    if host !in inventory then None
    else if inventory[host].storage == "" then Some(defaultStorage)
    else if inventory[host].storage in storages then Some(storages[inventory[host].storage])
    else None
  }

  datatype Snapshot = Snapshot(id: string, jobId: string, host: string, plugin: string, size: nat, checksum: string)

  /** How a plugin's Backup ends. The three failures after the file was created also remove it;
      `removed` says whether that os.Remove worked. */
  datatype DumpOutcome =
    | NoFile
    | DumpFailed(removed: bool)
    | StatFailed(removed: bool)
    | CloseFailed(removed: bool)
    | Dumped(size: nat)

  /** The outcomes of the calls made for one resource, in call order. `removed` is the
      deferred removal of the artifact. */
  datatype ResourceOutcome = ResourceOutcome(
    dump: DumpOutcome,
    verified: bool,
    checksum: Option<string>,
    snapshot: Option<string>,
    storageVerified: bool,
    record: Write,
    restored: bool,
    removed: bool)

  datatype Attempt = Attempt(resource: string, outcome: ResourceOutcome)

  /** The plugin_settings lookup that precedes the inventory's own configuration. */
  datatype ConfigLookup = LookupError | Stored(validJson: bool) | NotStored

  datatype PipelineOutcome = PipelineOutcome(
    lookup: ConfigLookup,
    factoryOk: bool,
    discovered: Option<seq<Attempt>>,
    retained: bool)

  datatype Stage =
    | BackupStage | VerifyStage | ChecksumStage | StoreStage | StorageVerifyStage | RecordStage | RestoreStage

  datatype PipelineError = ResourceError(resource: string, stage: Stage) | RetentionError

  datatype PipelineResult = Success | ConfigError | FactoryError | DiscoverError | Errors(errs: seq<PipelineError>)

  // ---- One resource ----

  function SnapshotIds(snapshots: seq<Snapshot>): set<string> {
    set i | 0 <= i < |snapshots| :: snapshots[i].id
  }

  /** The step the resource stops at before its snapshot is due for recording. */
  function UnsoundStage(o: ResourceOutcome): Option<Stage> {
    if !o.dump.Dumped? then Some(BackupStage)
    else if !o.verified then Some(VerifyStage)
    else if o.checksum.None? then Some(ChecksumStage)
    else if o.snapshot.None? then Some(StoreStage)
    else if !o.storageVerified then Some(StorageVerifyStage)
    else None
  }

  /** The step the resource stops at, None when it gets through. */
  function FailedStage(taken: set<string>, o: ResourceOutcome, verify: bool): Option<Stage> {
    if UnsoundStage(o).Some? then UnsoundStage(o)
    else if o.record != Applied || o.snapshot.value in taken then Some(RecordStage)
    else if verify && !o.restored then Some(RestoreStage)
    else None
  }

  /** The fixed event chain of one resource. */
  function Chain(verify: bool): seq<Kind> {
    [ArtifactCreated, UploadStarted, UploadCompleted, RepositoryVerificationStarted, RepositoryVerificationCompleted]
    + if verify then [RestoreVerificationStarted, RestoreVerificationCompleted] else []
  }

  /** How much of the chain is published when the resource stops at `stage`. */
  function Progress(stage: Option<Stage>, verify: bool): (n: nat)
    ensures n <= |Chain(verify)|
  {
    match stage
    case None => |Chain(verify)|
    case Some(BackupStage) | Some(VerifyStage) | Some(ChecksumStage) => 0
    case Some(StoreStage) => 2
    case Some(StorageVerifyStage) => 4
    case Some(RecordStage) => 5
    case Some(RestoreStage) => if verify then 6 else 5
  }

  function Stamp(job: Job, kinds: seq<Kind>, resource: string): (events: seq<Event>)
    ensures |events| == |kinds|
  {
    seq(|kinds|, i requires 0 <= i < |kinds| => Event(kinds[i], job.id, job.host, job.plugin, resource))
  }

  lemma StampNext(job: Job, verify: bool, n: nat, resource: string)
    requires n < |Chain(verify)|
    ensures Stamp(job, Chain(verify)[..n], resource) + [Event(Chain(verify)[n], job.id, job.host, job.plugin, resource)]
         == Stamp(job, Chain(verify)[..n + 1], resource)
  {
  }

  /** Everything up to the repository verification went well: the snapshot deserves a row. */
  predicate Sound(o: ResourceOutcome) {
    o.dump.Dumped? && o.verified && o.checksum.Some? && o.snapshot.Some? && o.storageVerified
  }

  function SnapshotOf(job: Job, o: ResourceOutcome): Snapshot
    requires Sound(o)
  {
    Snapshot(o.snapshot.value, job.id, job.host, job.plugin, o.dump.size, o.checksum.value)
  }

  /** The snapshots table after one resource. */
  function RecordOne(snapshots: seq<Snapshot>, job: Job, o: ResourceOutcome): seq<Snapshot> {
    if Sound(o) && o.record != Rejected && o.snapshot.value !in SnapshotIds(snapshots)
    then snapshots + [SnapshotOf(job, o)] else snapshots
  }

  /** What the repositories hold after one resource. */
  function StoreOne(stored: set<(Provider, string)>, sp: Provider, o: ResourceOutcome): set<(Provider, string)> {
    if o.dump.Dumped? && o.verified && o.checksum.Some? && o.snapshot.Some?
    then stored + {(sp, o.snapshot.value)} else stored
  }

  /** Artifact files that stay behind: those whose removal failed. */
  predicate LeavesFile(o: ResourceOutcome) {
    match o.dump
    case NoFile => false
    case Dumped(_) => !o.removed
    case _ => !o.dump.removed
  }

  /** A call of the plugin's Restore for a restore test: the artifact file and the target. */
  datatype RestoreTest = RestoreTest(path: nat, target: string)

  /** A call of ApplyRetention on a repository. */
  datatype Retention = Retention(sp: Provider, host: string, policy: Policy)

  /** The restore test of one resource: its artifact, never restored over the resource itself. */
  function TestOf(name: nat, snapshots: seq<Snapshot>, a: Attempt, verify: bool): seq<RestoreTest> {
    if verify && Sound(a.outcome) && a.outcome.record == Applied
       && a.outcome.snapshot.value !in SnapshotIds(snapshots)
    then [RestoreTest(name, a.resource + RESTORE_TEST_SUFFIX)] else []
  }

  // ---- All resources, in order ----

  function RecordAll(snapshots: seq<Snapshot>, job: Job, attempts: seq<Attempt>): seq<Snapshot>
    decreases |attempts|
  {
    if attempts == [] then snapshots
    else RecordAll(RecordOne(snapshots, job, attempts[0].outcome), job, attempts[1..])
  }

  function StoreAll(stored: set<(Provider, string)>, sp: Provider, attempts: seq<Attempt>): set<(Provider, string)>
    decreases |attempts|
  {
    if attempts == [] then stored else StoreAll(StoreOne(stored, sp, attempts[0].outcome), sp, attempts[1..])
  }

  /** The stage each resource stops at; the primary key of the snapshots table is the only
      way one resource can touch another. */
  function Stages(snapshots: seq<Snapshot>, job: Job, attempts: seq<Attempt>,
                  verify: bool): (stages: seq<Option<Stage>>)
    ensures |stages| == |attempts|
    decreases |attempts|
  {
    if attempts == [] then []
    else (
      [FailedStage(SnapshotIds(snapshots), attempts[0].outcome, verify)]
      + Stages(RecordOne(snapshots, job, attempts[0].outcome), job, attempts[1..], verify)
    )
  }

  function ResourceEvents(job: Job, attempts: seq<Attempt>, stages: seq<Option<Stage>>, verify: bool): seq<Event>
    requires |stages| == |attempts|
  {
    if attempts == [] then []
    else (
      Stamp(job, Chain(verify)[..Progress(stages[0], verify)], attempts[0].resource)
      + ResourceEvents(job, attempts[1..], stages[1..], verify)
    )
  }

  function ErrorOf(snapshots: seq<Snapshot>, a: Attempt, verify: bool): seq<PipelineError> {
    var failed := FailedStage(SnapshotIds(snapshots), a.outcome, verify);
    if failed.Some? then [ResourceError(a.resource, failed.value)] else []
  }

  function ErrorsOf(snapshots: seq<Snapshot>, job: Job, attempts: seq<Attempt>, verify: bool): seq<PipelineError>
    decreases |attempts|
  {
    if attempts == [] then []
    else (
      ErrorOf(snapshots, attempts[0], verify)
      + ErrorsOf(RecordOne(snapshots, job, attempts[0].outcome), job, attempts[1..], verify)
    )
  }

  /** The artifact files left behind when the first of them is called `name`. */
  function FilesLeft(name: nat, attempts: seq<Attempt>): set<nat>
    decreases |attempts|
  {
    if attempts == [] then {}
    else (
      (if LeavesFile(attempts[0].outcome) then {name} else {})
      + FilesLeft(NextName(name, attempts[0].outcome), attempts[1..])
    )
  }

  function NextName(name: nat, o: ResourceOutcome): nat {
    if o.dump.NoFile? then name else name + 1
  }

  function TestsOf(name: nat, snapshots: seq<Snapshot>, job: Job, attempts: seq<Attempt>, verify: bool)
    : seq<RestoreTest>
    decreases |attempts|
  {
    if attempts == [] then []
    else (
      var o := attempts[0].outcome;
      TestOf(name, snapshots, attempts[0], verify)
      + TestsOf(NextName(name, o), RecordOne(snapshots, job, o), job, attempts[1..], verify)
    )
  }

  /** What a pipeline changes: published events, snapshot rows, repository contents, files in temp_dir and
      the next unused file name, and what the plugin and the repositories were asked to do. */
  datatype World = World(
    trace: seq<Event>,
    snapshots: seq<Snapshot>,
    stored: set<(Provider, string)>,
    tempFiles: set<nat>,
    nextTemp: nat,
    restores: seq<RestoreTest>,
    retentions: seq<Retention>)

  function AfterResource(w: World, job: Job, sp: Provider, a: Attempt, verify: bool): World {
    var failed := FailedStage(SnapshotIds(w.snapshots), a.outcome, verify);
    World(
      w.trace + Stamp(job, Chain(verify)[..Progress(failed, verify)], a.resource),
      RecordOne(w.snapshots, job, a.outcome),
      StoreOne(w.stored, sp, a.outcome),
      w.tempFiles + (if LeavesFile(a.outcome) then {w.nextTemp} else {}),
      NextName(w.nextTemp, a.outcome),
      w.restores + TestOf(w.nextTemp, w.snapshots, a, verify),
      w.retentions)
  }

  function AfterResources(w: World, job: Job, sp: Provider, attempts: seq<Attempt>, verify: bool): World
    decreases |attempts|
  {
    if attempts == [] then w
    else AfterResources(AfterResource(w, job, sp, attempts[0], verify), job, sp, attempts[1..], verify)
  }

  /** The loop with its accumulators: the world and the collected errors. */
  function Loop(w: World, errs: seq<PipelineError>, job: Job, sp: Provider, attempts: seq<Attempt>, verify: bool)
    : (World, seq<PipelineError>)
    decreases |attempts|
  {
    if attempts == [] then (w, errs)
    else Loop(AfterResource(w, job, sp, attempts[0], verify), errs + ErrorOf(w.snapshots, attempts[0], verify),
              job, sp, attempts[1..], verify)
  }

  lemma {:induction false} LoopIs(w: World, errs: seq<PipelineError>, job: Job, sp: Provider, attempts: seq<Attempt>,
                                  verify: bool)
    ensures Loop(w, errs, job, sp, attempts, verify)
         == (AfterResources(w, job, sp, attempts, verify), errs + ErrorsOf(w.snapshots, job, attempts, verify))
    decreases |attempts|
  {
    if attempts == [] {
      assert errs + ErrorsOf(w.snapshots, job, attempts, verify) == errs;
    } else {
      var e := ErrorOf(w.snapshots, attempts[0], verify);
      var next := AfterResource(w, job, sp, attempts[0], verify);
      LoopIs(next, errs + e, job, sp, attempts[1..], verify);
      var rest := ErrorsOf(next.snapshots, job, attempts[1..], verify);
      assert ErrorsOf(w.snapshots, job, attempts, verify) == e + rest;
      assert (errs + e) + rest == errs + (e + rest);
    }
  }

  // The loop over the resources, field by field.

  lemma {:induction false} TraceAfterResources(w: World, job: Job, sp: Provider, attempts: seq<Attempt>, verify: bool)
    ensures AfterResources(w, job, sp, attempts, verify).trace
         == w.trace + ResourceEvents(job, attempts, Stages(w.snapshots, job, attempts, verify), verify)
    decreases |attempts|
  {
    var stages := Stages(w.snapshots, job, attempts, verify);
    if attempts == [] {
      assert w.trace + [] == w.trace;
    } else {
      var next := AfterResource(w, job, sp, attempts[0], verify);
      TraceAfterResources(next, job, sp, attempts[1..], verify);
      var first := Stamp(job, Chain(verify)[..Progress(stages[0], verify)], attempts[0].resource);
      assert next.trace == w.trace + first;
      assert stages[1..] == Stages(next.snapshots, job, attempts[1..], verify);
      Append3(w.trace, first, ResourceEvents(job, attempts[1..], stages[1..], verify));
    }
  }

  lemma {:induction false} SnapshotsAfterResources(w: World, job: Job, sp: Provider, attempts: seq<Attempt>,
                                                   verify: bool)
    ensures AfterResources(w, job, sp, attempts, verify).snapshots == RecordAll(w.snapshots, job, attempts)
    decreases |attempts|
  {
    if attempts == [] {
    } else {
      SnapshotsAfterResources(AfterResource(w, job, sp, attempts[0], verify), job, sp, attempts[1..], verify);
    }
  }

  lemma {:induction false} StoredAfterResources(w: World, job: Job, sp: Provider, attempts: seq<Attempt>, verify: bool)
    ensures AfterResources(w, job, sp, attempts, verify).stored == StoreAll(w.stored, sp, attempts)
    decreases |attempts|
  {
    if attempts == [] {
    } else {
      StoredAfterResources(AfterResource(w, job, sp, attempts[0], verify), job, sp, attempts[1..], verify);
    }
  }

  lemma {:induction false} FilesAfterResources(w: World, job: Job, sp: Provider, attempts: seq<Attempt>, verify: bool)
    ensures AfterResources(w, job, sp, attempts, verify).tempFiles == w.tempFiles + FilesLeft(w.nextTemp, attempts)
    decreases |attempts|
  {
    if attempts == [] {
    } else {
      FilesAfterResources(AfterResource(w, job, sp, attempts[0], verify), job, sp, attempts[1..], verify);
    }
  }

  lemma {:induction false} TestsAfterResources(w: World, job: Job, sp: Provider, attempts: seq<Attempt>, verify: bool)
    ensures
      var after := AfterResources(w, job, sp, attempts, verify);
      && after.restores == w.restores + TestsOf(w.nextTemp, w.snapshots, job, attempts, verify)
      && after.retentions == w.retentions
    decreases |attempts|
  {
    if attempts == [] {
      assert w.restores + [] == w.restores;
    } else {
      var next := AfterResource(w, job, sp, attempts[0], verify);
      TestsAfterResources(next, job, sp, attempts[1..], verify);
      Append3(w.restores, TestOf(w.nextTemp, w.snapshots, attempts[0], verify),
              TestsOf(next.nextTemp, next.snapshots, job, attempts[1..], verify));
    }
  }

  // ---- The whole pipeline ----

  function ConfigResolved(lookup: ConfigLookup, srv: Server, plugin: string): bool {
    lookup == Stored(true) || (lookup.NotStored? && plugin in srv.plugins)
  }

  predicate Discovered(srv: Server, job: Job, out: PipelineOutcome) {
    ConfigResolved(out.lookup, srv, job.plugin) && out.factoryOk && out.discovered.Some?
  }

  /** The resources that are attempted at all. */
  function Attempted(srv: Server, job: Job, out: PipelineOutcome): seq<Attempt> {
    if Discovered(srv, job, out) then out.discovered.value else []
  }

  function ResultOf(srv: Server, job: Job, snapshots: seq<Snapshot>, out: PipelineOutcome,
                    verify: bool): PipelineResult {
    if !ConfigResolved(out.lookup, srv, job.plugin) then ConfigError
    else if !out.factoryOk then FactoryError
    else if out.discovered.None? then DiscoverError
    else
      var attempts := out.discovered.value;
      var errs := ErrorsOf(snapshots, job, attempts, verify) + if out.retained then [] else [RetentionError];
      if errs == [] then Success else Errors(errs)
  }

  function Announce(w: World, e: Event): World {
    w.(trace := w.trace + [e])
  }

  function ApplyRetention(w: World, sp: Provider, job: Job): World {
    w.(retentions := w.retentions + [Retention(sp, job.host, job.policy)])
  }

  function AfterPipeline(w: World, srv: Server, job: Job, sp: Provider, out: PipelineOutcome, verify: bool): World {
    if !ConfigResolved(out.lookup, srv, job.plugin) || !out.factoryOk then w
    else if out.discovered.None? then Announce(w, JobEvent(job, DiscoveryStarted))
    else
      var ready := Announce(Announce(w, JobEvent(job, DiscoveryStarted)), JobEvent(job, DiscoveryCompleted));
      var done := ApplyRetention(AfterResources(ready, job, sp, out.discovered.value, verify), sp, job);
      if out.retained then Announce(done, JobEvent(job, RetentionApplied)) else done
  }

  /** The world after a job that was marked in_progress. */
  function AfterJob(w: World, srv: Server, job: Job, sp: Provider, out: PipelineOutcome, verify: bool): World {
    var started := Announce(w, JobEvent(job, BackupStarted));
    var done := AfterPipeline(started, srv, job, sp, out, verify);
    var success := ResultOf(srv, job, w.snapshots, out, verify).Success?;
    Announce(done, JobEvent(job, if success then BackupCompleted else BackupFailed))
  }

  function JobEvent(job: Job, kind: Kind): Event {
    Event(kind, job.id, job.host, job.plugin, "")
  }

  function PipelineEvents(srv: Server, job: Job, snapshots: seq<Snapshot>, out: PipelineOutcome,
                          verify: bool): seq<Event> {
    if !ConfigResolved(out.lookup, srv, job.plugin) || !out.factoryOk then []
    else if out.discovered.None? then [JobEvent(job, DiscoveryStarted)]
    else
      var attempts := out.discovered.value;
      [JobEvent(job, DiscoveryStarted), JobEvent(job, DiscoveryCompleted)]
      + ResourceEvents(job, attempts, Stages(snapshots, job, attempts, verify), verify)
      + if out.retained then [JobEvent(job, RetentionApplied)] else []
  }

  /** All events of a job that was marked in_progress. */
  function JobTrace(srv: Server, job: Job, snapshots: seq<Snapshot>, out: PipelineOutcome, verify: bool): seq<Event> {
    [JobEvent(job, BackupStarted)]
    + PipelineEvents(srv, job, snapshots, out, verify)
    + [JobEvent(job, if ResultOf(srv, job, snapshots, out, verify).Success? then BackupCompleted else BackupFailed)]
  }

  function Ready(w: World, job: Job): World {
    Announce(Announce(w, JobEvent(job, DiscoveryStarted)), JobEvent(job, DiscoveryCompleted))
  }

  lemma Announced(w: World, srv: Server, job: Job, sp: Provider, out: PipelineOutcome, verify: bool)
    requires Discovered(srv, job, out)
    ensures
      var done := ApplyRetention(AfterResources(Ready(w, job), job, sp, out.discovered.value, verify), sp, job);
      && AfterPipeline(w, srv, job, sp, out, verify)
          == (if out.retained then Announce(done, JobEvent(job, RetentionApplied)) else done)
      && Ready(w, job).trace == w.trace + [JobEvent(job, DiscoveryStarted), JobEvent(job, DiscoveryCompleted)]
      && Ready(w, job) == w.(trace := Ready(w, job).trace)
  {
  }

  lemma NothingAttempted(w: World, srv: Server, job: Job, sp: Provider, out: PipelineOutcome, verify: bool)
    requires !Discovered(srv, job, out)
    ensures
      var after := AfterPipeline(w, srv, job, sp, out, verify);
      && after.trace == w.trace + PipelineEvents(srv, job, w.snapshots, out, verify)
      && after == w.(trace := after.trace) && Attempted(srv, job, out) == []
  {
    assert w.trace + [] == w.trace;
  }

  lemma TraceAfterPipeline(w: World, srv: Server, job: Job, sp: Provider, out: PipelineOutcome, verify: bool)
    ensures AfterPipeline(w, srv, job, sp, out, verify).trace
        == w.trace + PipelineEvents(srv, job, w.snapshots, out, verify)
  {
    if !Discovered(srv, job, out) {
      NothingAttempted(w, srv, job, sp, out, verify);
    } else {
      var attempts := out.discovered.value;
      Announced(w, srv, job, sp, out, verify);
      TraceAfterResources(Ready(w, job), job, sp, attempts, verify);
      var events := ResourceEvents(job, attempts, Stages(w.snapshots, job, attempts, verify), verify);
      var opening := [JobEvent(job, DiscoveryStarted), JobEvent(job, DiscoveryCompleted)];
      var last := if out.retained then [JobEvent(job, RetentionApplied)] else [];
      Append3(w.trace, opening, events);
      Append3(w.trace, opening + events, last);
      var done := AfterResources(Ready(w, job), job, sp, attempts, verify);
      assert done.trace + [] == done.trace;
    }
  }

  lemma RestAfterPipeline(w: World, srv: Server, job: Job, sp: Provider, out: PipelineOutcome, verify: bool)
    ensures
      var after := AfterPipeline(w, srv, job, sp, out, verify);
      && after.snapshots == RecordAll(w.snapshots, job, Attempted(srv, job, out))
      && after.stored == StoreAll(w.stored, sp, Attempted(srv, job, out))
      && after.tempFiles == w.tempFiles + FilesLeft(w.nextTemp, Attempted(srv, job, out))
      && after.restores == w.restores + TestsOf(w.nextTemp, w.snapshots, job, Attempted(srv, job, out), verify)
      && after.retentions
         == w.retentions + (if Discovered(srv, job, out) then [Retention(sp, job.host, job.policy)] else [])
  {
    if !Discovered(srv, job, out) {
      NothingAttempted(w, srv, job, sp, out, verify);
      assert FilesLeft(w.nextTemp, []) == {} && TestsOf(w.nextTemp, w.snapshots, job, [], verify) == [];
      assert w.restores + [] == w.restores && w.retentions + [] == w.retentions;
    } else {
      var attempts := out.discovered.value;
      Announced(w, srv, job, sp, out, verify);
      SnapshotsAfterResources(Ready(w, job), job, sp, attempts, verify);
      StoredAfterResources(Ready(w, job), job, sp, attempts, verify);
      FilesAfterResources(Ready(w, job), job, sp, attempts, verify);
      TestsAfterResources(Ready(w, job), job, sp, attempts, verify);
    }
  }

  lemma TraceAfterJob(w: World, srv: Server, job: Job, sp: Provider, out: PipelineOutcome, verify: bool)
    ensures AfterJob(w, srv, job, sp, out, verify).trace == w.trace + JobTrace(srv, job, w.snapshots, out, verify)
  {
    var first := [JobEvent(job, BackupStarted)];
    var events := PipelineEvents(srv, job, w.snapshots, out, verify);
    TraceAfterPipeline(Announce(w, JobEvent(job, BackupStarted)), srv, job, sp, out, verify);
    var success := ResultOf(srv, job, w.snapshots, out, verify).Success?;
    var last := [JobEvent(job, if success then BackupCompleted else BackupFailed)];
    Append3(w.trace, first, events);
    Append3(w.trace, first + events, last);
  }

  /** The whole job, field by field. */
  lemma AfterJobFieldwise(w: World, srv: Server, job: Job, sp: Provider, out: PipelineOutcome, verify: bool)
    ensures
      var after := AfterJob(w, srv, job, sp, out, verify);
      && after.trace == w.trace + JobTrace(srv, job, w.snapshots, out, verify)
      && after.snapshots == RecordAll(w.snapshots, job, Attempted(srv, job, out))
      && after.stored == StoreAll(w.stored, sp, Attempted(srv, job, out))
      && after.tempFiles == w.tempFiles + FilesLeft(w.nextTemp, Attempted(srv, job, out))
      && after.restores == w.restores + TestsOf(w.nextTemp, w.snapshots, job, Attempted(srv, job, out), verify)
      && after.retentions
         == w.retentions + (if Discovered(srv, job, out) then [Retention(sp, job.host, job.policy)] else [])
  {
    TraceAfterJob(w, srv, job, sp, out, verify);
    RestAfterPipeline(Announce(w, JobEvent(job, BackupStarted)), srv, job, sp, out, verify);
  }
}
