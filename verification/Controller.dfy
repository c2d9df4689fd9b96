/** The controller: RunJob, runPipeline, backupResource and the steps around them. */
module Controller {
  import opened Core
  import opened Events
  import opened Jobs
  import opened Outcomes
  import opened Pipeline

  datatype RunError =
    | NotStartable
    | NotMarked
    | PipelineFailed(result: PipelineResult)
    | NotRecorded(result: PipelineResult)

  /** Everything outside RunJob's control during one call. */
  datatype RunOutcome = RunOutcome(start: Write, pipeline: PipelineOutcome, finish: Write)

  class Controller {
    const inventory: Inventory
    const factories: set<string>
    const defaultStorage: Provider
    const storages: map<string, Provider>
    const verification: bool
    const jobs: JobTable

    var trace: seq<Event>                  // events published, oldest first
    var snapshots: seq<Snapshot>           // rows of the snapshots table, oldest first
    var stored: set<(Provider, string)>    // snapshot IDs handed out by each repository
    var tempFiles: set<nat>                // files in temp_dir
    var nextTemp: nat                      // stands for CreateTemp's choice of an unused name
    var restores: seq<RestoreTest>         // the plugins' Restore calls, oldest first
    var retentions: seq<Retention>         // ApplyRetention calls, oldest first

    ghost predicate Valid()
      reads this
    {
      forall f :: f in tempFiles ==> f < nextTemp
    }

    constructor (inventory: Inventory, factories: set<string>, defaultStorage: Provider,
                 storages: map<string, Provider>, verification: bool, jobs: JobTable)
      ensures Valid()
      ensures this.inventory == inventory && this.factories == factories && this.defaultStorage == defaultStorage
      ensures this.storages == storages && this.verification == verification && this.jobs == jobs
      ensures trace == [] && snapshots == [] && stored == {} && tempFiles == {}
      ensures restores == [] && retentions == []
    {
      this.inventory, this.factories, this.defaultStorage := inventory, factories, defaultStorage;
      this.storages, this.verification, this.jobs := storages, verification, jobs;
      trace, snapshots, stored, tempFiles, nextTemp, restores, retentions := [], [], {}, {}, 0, [], [];
    }

    function StorageFor(host: string): Option<Provider> {
      StorageOf(inventory, defaultStorage, storages, host)
    }

    function Startable(job: Job): bool {
      job.host in inventory && job.plugin in factories && StorageFor(job.host).Some?
    }

    /** A host's own verification block replaces the global default. */
    function Verify(host: string): bool
      requires host in inventory
    {
      match inventory[host].verification
      case Some(enabled) => enabled
      case None => verification
    }

    method Publish(job: Job, kind: Kind, resource: string)
      modifies this`trace
      ensures trace == old(trace) + [Event(kind, job.id, job.host, job.plugin, resource)]
    {
      trace := trace + [Event(kind, job.id, job.host, job.plugin, resource)];
    }

    method RemoveTemp(path: nat, removed: bool)
      modifies this`tempFiles
      ensures tempFiles == if removed then old(tempFiles) - {path} else old(tempFiles)
    {
      if removed {
        tempFiles := tempFiles - {path};
      }
    }

    /** Backup of the postgres, mariadb and informix plugins: create, dump, stat, close. */
    method Backup(o: DumpOutcome) returns (artifact: Option<(nat, nat)>)
      requires Valid()
      modifies this`tempFiles, this`nextTemp
      ensures Valid()
      ensures nextTemp == if o.NoFile? then old(nextTemp) else old(nextTemp) + 1
      ensures artifact == if o.Dumped? then Some((old(nextTemp), o.size)) else None
      ensures tempFiles == old(tempFiles) + if o.Dumped? || (!o.NoFile? && !o.removed) then {old(nextTemp)} else {}
    {
      if o.NoFile? {
        return None;
      }
      var path := nextTemp;
      nextTemp := nextTemp + 1;
      tempFiles := tempFiles + {path};
      if o.DumpFailed? {
        RemoveTemp(path, o.removed);
        return None;
      }
      if o.StatFailed? {
        RemoveTemp(path, o.removed);
        return None;
      }
      if o.CloseFailed? {
        RemoveTemp(path, o.removed);
        return None;
      }
      return Some((path, o.size));
    }

    /** INSERT INTO snapshots: the primary key rejects a known ID. */
    method RecordSnapshot(snap: Snapshot, w: Write) returns (ok: bool)
      modifies this`snapshots
      ensures ok <==> w == Applied && snap.id !in SnapshotIds(old(snapshots))
      ensures snapshots == if w == Rejected || snap.id in SnapshotIds(old(snapshots)) then old(snapshots)
                           else old(snapshots) + [snap]
    {
      if w == Rejected || snap.id in SnapshotIds(snapshots) {
        return false;
      }
      snapshots := snapshots + [snap];
      ok := w == Applied;
    }

    /** Publishes the next event of the resource's chain. */
    method PublishNext(job: Job, kind: Kind, resource: string, ghost verify: bool, ghost n: nat,
                       ghost before: seq<Event>)
      requires n < |Chain(verify)| && kind == Chain(verify)[n]
      requires trace == before + Stamp(job, Chain(verify)[..n], resource)
      modifies this`trace
      ensures trace == before + Stamp(job, Chain(verify)[..n + 1], resource)
    {
      Publish(job, kind, resource);
      StampNext(job, verify, n, resource);
      assert trace == before + (Stamp(job, Chain(verify)[..n], resource) + [trace[|trace| - 1]]);
    }

    /** backupResource from the plugin's Verify to the repository's. */
    method CheckAndStore(job: Job, sp: Provider, resource: string, path: nat, o: ResourceOutcome, ghost verify: bool)
      returns (failed: Option<Stage>)
      requires o.dump.Dumped? && path in tempFiles
      modifies this`trace, this`stored
      ensures failed == UnsoundStage(o)
      ensures trace == old(trace)
                       + Stamp(job, Chain(verify)[..if failed.None? then 5 else Progress(failed, verify)], resource)
      ensures stored == StoreOne(old(stored), sp, o)
    {
      ghost var before := trace;
      assert trace == before + Stamp(job, Chain(verify)[..0], resource);
      if !o.verified {
        return Some(VerifyStage);
      }
      if o.checksum.None? {
        return Some(ChecksumStage);
      }
      PublishNext(job, ArtifactCreated, resource, verify, 0, before);
      PublishNext(job, UploadStarted, resource, verify, 1, before);
      if o.snapshot.None? {
        return Some(StoreStage);
      }
      stored := stored + {(sp, o.snapshot.value)};
      PublishNext(job, UploadCompleted, resource, verify, 2, before);
      PublishNext(job, RepositoryVerificationStarted, resource, verify, 3, before);
      if !o.storageVerified {
        return Some(StorageVerifyStage);
      }
      PublishNext(job, RepositoryVerificationCompleted, resource, verify, 4, before);
      return None;
    }

    /** The plugin's Restore, which reads the artifact. */
    method Restore(path: nat, target: string, restored: bool) returns (ok: bool)
      requires path in tempFiles
      modifies this`restores
      ensures restores == old(restores) + [RestoreTest(path, target)] && ok == restored
    {
      restores := restores + [RestoreTest(path, target)];
      ok := restored;
    }

    /** backupResource from the snapshot's insert to the restore test. */
    method RecordAndTest(job: Job, resource: string, path: nat, o: ResourceOutcome, verify: bool,
                         ghost before: seq<Event>)
      returns (failed: Option<Stage>)
      requires Sound(o) && path in tempFiles && trace == before + Stamp(job, Chain(verify)[..5], resource)
      modifies this`trace, this`snapshots, this`restores
      ensures failed == FailedStage(SnapshotIds(old(snapshots)), o, verify)
      ensures trace == before + Stamp(job, Chain(verify)[..Progress(failed, verify)], resource)
      ensures snapshots == RecordOne(old(snapshots), job, o)
      ensures restores == old(restores) + TestOf(path, old(snapshots), Attempt(resource, o), verify)
    {
      var recorded := RecordSnapshot(SnapshotOf(job, o), o.record);
      if !recorded {
        return Some(RecordStage);
      }
      if verify {
        PublishNext(job, RestoreVerificationStarted, resource, verify, 5, before);
        var restored := Restore(path, resource + RESTORE_TEST_SUFFIX, o.restored);
        if !restored {
          return Some(RestoreStage);
        }
        PublishNext(job, RestoreVerificationCompleted, resource, verify, 6, before);
      }
      return None;
    }

    function Now(): World
      reads this
    {
      World(trace, snapshots, stored, tempFiles, nextTemp, restores, retentions)
    }

    method BackupResource(job: Job, sp: Provider, a: Attempt, verify: bool) returns (failed: Option<Stage>)
      requires Valid()
      modifies this`trace, this`snapshots, this`stored, this`tempFiles, this`nextTemp, this`restores
      ensures Valid()
      ensures failed == FailedStage(SnapshotIds(old(snapshots)), a.outcome, verify)
      ensures Now() == AfterResource(old(Now()), job, sp, a, verify)
      ensures ResourceDone(old(Now()), Now(), job, sp, a, verify, failed == None)
    {
      ResourceIsDone(Now(), job, sp, a, verify);
      var artifact := Backup(a.outcome.dump);
      if artifact.None? {
        assert trace == old(trace) + Stamp(job, Chain(verify)[..0], a.resource);
        return Some(BackupStage);
      }
      failed := CheckAndStore(job, sp, a.resource, artifact.value.0, a.outcome, verify);
      if failed.None? {
        failed := RecordAndTest(job, a.resource, artifact.value.0, a.outcome, verify, old(trace));
      }
      RemoveTemp(artifact.value.0, a.outcome.removed);
    }

    /** One turn of runPipeline's loop. */
    method BackupNext(job: Job, sp: Provider, a: Attempt, verify: bool, errs: seq<PipelineError>)
      returns (errs': seq<PipelineError>)
      requires Valid()
      modifies this`trace, this`snapshots, this`stored, this`tempFiles, this`nextTemp, this`restores
      ensures Valid()
      ensures errs' == errs + ErrorOf(old(snapshots), a, verify)
      ensures Now() == AfterResource(old(Now()), job, sp, a, verify)
    {
      var failed := BackupResource(job, sp, a, verify);
      errs' := errs;
      if failed.Some? {
        errs' := errs + [ResourceError(a.resource, failed.value)];
      }
    }

    /** The loop of runPipeline: one resource's failure does not stop the others. */
    method BackupAll(job: Job, sp: Provider, attempts: seq<Attempt>, verify: bool) returns (errs: seq<PipelineError>)
      requires Valid()
      modifies this`trace, this`snapshots, this`stored, this`tempFiles, this`nextTemp, this`restores
      ensures Valid()
      ensures errs == ErrorsOf(old(snapshots), job, attempts, verify)
      ensures Now() == AfterResources(old(Now()), job, sp, attempts, verify)
    {
      errs := [];
      ghost var all := Loop(Now(), errs, job, sp, attempts, verify);
      var i := 0;
      assert attempts[0..] == attempts;
      while i < |attempts|
        invariant i <= |attempts| && Valid()
        invariant all == Loop(Now(), errs, job, sp, attempts[i..], verify)
      {
        assert attempts[i..][1..] == attempts[i + 1..];
        errs := BackupNext(job, sp, attempts[i], verify, errs);
        i := i + 1;
      }
      LoopIs(old(Now()), [], job, sp, attempts, verify);
    }

    /** runPipeline: discover, attempt every resource, then run retention once. */
    method RunPipeline(job: Job, srv: Server, sp: Provider, out: PipelineOutcome,
                       verify: bool) returns (result: PipelineResult)
      requires Valid()
      modifies this`trace, this`snapshots, this`stored, this`tempFiles, this`nextTemp, this`restores, this`retentions
      ensures Valid()
      ensures result == ResultOf(srv, job, old(snapshots), out, verify)
      ensures Now() == AfterPipeline(old(Now()), srv, job, sp, out, verify)
    {
      if out.lookup.LookupError? || out.lookup == Stored(false) {
        return ConfigError;
      }
      if out.lookup.NotStored? && job.plugin !in srv.plugins {
        return ConfigError;
      }
      if !out.factoryOk {
        return FactoryError;
      }
      Publish(job, DiscoveryStarted, "");
      if out.discovered.None? {
        return DiscoverError;
      }
      Publish(job, DiscoveryCompleted, "");
      var errs := BackupAll(job, sp, out.discovered.value, verify);
      retentions := retentions + [Retention(sp, job.host, job.policy)];
      if out.retained {
        Publish(job, RetentionApplied, "");
      } else {
        errs := errs + [RetentionError];
      }
      return if errs == [] then Success else Errors(errs);
    }

    /** RunJob from BackupStarted on: the job's row says in_progress. */
    method RunMarked(job: Job, srv: Server, sp: Provider, out: PipelineOutcome, verify: bool, finish: Write)
      returns (err: Option<RunError>)
      requires Valid()
      modifies this, jobs
      ensures Valid()
      ensures
        var result := ResultOf(srv, job, old(snapshots), out, verify);
        && jobs.rows == (if finish == Rejected then old(jobs.rows)
                         else SetStatus(old(jobs.rows), job.id, if result.Success? then Completed else Failed))
        && err == (if finish != Applied || job.id !in old(jobs.rows) then Some(NotRecorded(result))
                   else if result.Success? then None else Some(PipelineFailed(result)))
      ensures Now() == AfterJob(old(Now()), srv, job, sp, out, verify)
      ensures JobDone(old(Now()), Now(), srv, job, sp, out, verify,
                      ResultOf(srv, job, old(snapshots), out, verify).Success?)
    {
      JobIsDone(Now(), srv, job, sp, out, verify);
      Publish(job, BackupStarted, "");
      var result := RunPipeline(job, srv, sp, out, verify);
      Publish(job, if result.Success? then BackupCompleted else BackupFailed, "");
      var recorded := jobs.UpdateJobStatus(job.id, if result.Success? then Completed else Failed, finish);
      if recorded.Some? {
        return Some(NotRecorded(result));
      }
      return if result.Success? then None else Some(PipelineFailed(result));
    }

    /** RunJob on a job whose host, plugin and repository are known. */
    method RunKnown(job: Job, srv: Server, sp: Provider, o: RunOutcome, verify: bool) returns (err: Option<RunError>)
      requires Valid()
      modifies this, jobs
      ensures Valid()
      ensures
        if o.start != Applied || job.id !in old(jobs.rows) then
          && err == Some(NotMarked) && Now() == old(Now())
          && jobs.rows == RowsAfter(old(jobs.rows), job.id, true, o.start, false, o.finish)
        else
          var result := ResultOf(srv, job, old(snapshots), o.pipeline, verify);
          && Now() == AfterJob(old(Now()), srv, job, sp, o.pipeline, verify)
          && JobDone(old(Now()), Now(), srv, job, sp, o.pipeline, verify, result.Success?)
          && jobs.rows == RowsAfter(old(jobs.rows), job.id, true, o.start, result.Success?, o.finish)
          && err == (if o.finish != Applied then Some(NotRecorded(result))
                     else if result.Success? then None else Some(PipelineFailed(result)))
    {
      var marked := jobs.UpdateJobStatus(job.id, InProgress, o.start);
      if marked.Some? {
        return Some(NotMarked);
      }
      err := RunMarked(job, srv, sp, o.pipeline, verify, o.finish);
    }

    /** The whole job: `AfterJob` of the old state, and what that comes to, said of the outcomes alone. A
        host's own verification setting replaces the global one, whatever it says. */
    method RunJob(job: Job, o: RunOutcome) returns (err: Option<RunError>)
      requires Valid()
      modifies this, jobs
      ensures Valid()
      ensures !Startable(job) ==> jobs.rows == old(jobs.rows)
      ensures Startable(job) && (o.start != Applied || job.id !in old(jobs.rows)) ==>
        jobs.rows == RowsAfter(old(jobs.rows), job.id, true, o.start, false, o.finish)
      ensures Startable(job) && o.start == Applied && job.id in old(jobs.rows) ==>
        var result := ResultOf(inventory[job.host], job, old(snapshots), o.pipeline, Verify(job.host));
        && jobs.rows == RowsAfter(old(jobs.rows), job.id, true, o.start, result.Success?, o.finish)
        && Now() == AfterJob(old(Now()), inventory[job.host], job, StorageFor(job.host).value, o.pipeline,
                             Verify(job.host))
        && err == (if o.finish != Applied then Some(NotRecorded(result))
                   else if result.Success? then None else Some(PipelineFailed(result)))
      ensures
        var known := job.host in inventory && job.plugin in factories
          && (inventory[job.host].storage == "" || inventory[job.host].storage in storages);
        if !known then
          err == Some(NotStartable) && jobs.rows == old(jobs.rows) && Now() == old(Now())
        else if o.start != Applied || job.id !in old(jobs.rows) then
          && err == Some(NotMarked) && Now() == old(Now())
          && jobs.rows == if o.start == Rejected || job.id !in old(jobs.rows) then old(jobs.rows)
                          else old(jobs.rows)[job.id := Row(old(jobs.rows)[job.id].job, InProgress)]
        else
          var srv := inventory[job.host];
          var sp := if srv.storage == "" then defaultStorage else storages[srv.storage];
          var on := srv.verification == Some(true) || (srv.verification == None && verification);
          var ok := ResultOf(srv, job, old(snapshots), o.pipeline, on).Success?;
          && JobDone(old(Now()), Now(), srv, job, sp, o.pipeline, on, ok)
          && jobs.rows == old(jobs.rows)[job.id :=
               Row(old(jobs.rows)[job.id].job,
                   if o.finish == Rejected then InProgress else if ok then Completed else Failed)]
          && (err == None <==> ok && o.finish == Applied)
    {
      if job.host !in inventory || job.plugin !in factories {
        return Some(NotStartable);
      }
      var sp := StorageFor(job.host);
      if sp.None? {
        return Some(NotStartable);
      }
      RowsAfterAre(jobs.rows, job.id, o.start, o.finish);
      err := RunKnown(job, inventory[job.host], sp.value, o, Verify(job.host));
    }
  }
}
