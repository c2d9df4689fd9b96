/** What a job leaves, read off the outcomes of its calls resource by resource, without the state that the
    pipeline carries from one resource to the next. */
module Outcomes {
  import opened Core
  import opened Events
  import opened Pipeline
  import opened Traces

  // ---- The i-th resource ----

  /** The snapshot IDs that the table holds when the i-th resource's row is due: those it held before the
      job, and those of earlier resources whose own insert took effect. */
  ghost function TakenBefore(rows: seq<Snapshot>, all: seq<Attempt>, i: nat): set<string>
    requires i <= |all|
  {
    (set k | 0 <= k < |rows| :: rows[k].id)
    + (set j | 0 <= j < i && Accepted(all[j].outcome) && all[j].outcome.storageVerified
               && all[j].outcome.record != Rejected :: all[j].outcome.snapshot.value)
  }

  /** The repository took the artifact. */
  predicate Accepted(o: ResourceOutcome) {
    o.dump.Dumped? && o.verified && o.checksum.Some? && o.snapshot.Some?
  }

  /** The insert of the i-th resource's row took effect. */
  ghost predicate Inserted(rows: seq<Snapshot>, all: seq<Attempt>, i: nat)
    requires i < |all|
  {
    var o := all[i].outcome;
    Accepted(o) && o.storageVerified && o.record != Rejected && o.snapshot.value !in TakenBefore(rows, all, i)
  }

  /** How many artifact files the resources before the i-th created. */
  ghost function CreatedBefore(all: seq<Attempt>, i: nat): nat
    requires i <= |all|
  {
    if i == 0 then 0 else CreatedBefore(all, i - 1) + if all[i - 1].outcome.dump.NoFile? then 0 else 1
  }

  /** The resources after the first, seen from there. */
  lemma NextResource(rows: seq<Snapshot>, job: Job, all: seq<Attempt>, i: nat)
    requires 0 < i < |all|
    ensures TakenBefore(rows, all, i) == TakenBefore(RecordOne(rows, job, all[0].outcome), all[1..], i - 1)
    ensures Inserted(rows, all, i) <==> Inserted(RecordOne(rows, job, all[0].outcome), all[1..], i - 1)
    ensures CreatedBefore(all, i) == NextName(CreatedBefore(all[1..], i - 1), all[0].outcome)
  {
    TakenNext(rows, job, all, i);
    CreatedNext(all, i);
  }

  lemma TakenNext(rows: seq<Snapshot>, job: Job, all: seq<Attempt>, i: nat)
    requires 0 < i < |all|
    ensures TakenBefore(rows, all, i) == TakenBefore(RecordOne(rows, job, all[0].outcome), all[1..], i - 1)
  {
    var o, rest := all[0].outcome, all[1..];
    var rows' := RecordOne(rows, job, o);
    RowIds(rows, job, o);
    var later := set j | 0 <= j < i - 1 && Accepted(rest[j].outcome) && rest[j].outcome.storageVerified
                         && rest[j].outcome.record != Rejected :: rest[j].outcome.snapshot.value;
    forall id | id in TakenBefore(rows, all, i)
      ensures id in TakenBefore(rows', rest, i - 1)
    {
      if id !in SnapshotIds(rows') {
        var j :| 0 <= j < i && Accepted(all[j].outcome) && all[j].outcome.storageVerified
          && all[j].outcome.record != Rejected && all[j].outcome.snapshot.value == id;
        assert j > 0 && rest[j - 1] == all[j];
      }
    }
    forall id | id in later
      ensures id in TakenBefore(rows, all, i)
    {
      var j :| 0 <= j < i - 1 && Accepted(rest[j].outcome) && rest[j].outcome.storageVerified
        && rest[j].outcome.record != Rejected && rest[j].outcome.snapshot.value == id;
      assert all[j + 1] == rest[j];
    }
  }

  lemma RowIds(rows: seq<Snapshot>, job: Job, o: ResourceOutcome)
    ensures SnapshotIds(RecordOne(rows, job, o))
         == SnapshotIds(rows) + (if Sound(o) && o.record != Rejected then {o.snapshot.value} else {})
  {
    if Sound(o) && o.record != Rejected && o.snapshot.value !in SnapshotIds(rows) {
      IdsAfter(rows, SnapshotOf(job, o));
    }
  }

  lemma {:induction false} CreatedNext(all: seq<Attempt>, i: nat)
    requires 0 < i <= |all|
    ensures CreatedBefore(all, i) == NextName(CreatedBefore(all[1..], i - 1), all[0].outcome)
  {
    if i == 1 {
    } else {
      CreatedNext(all, i - 1);
    }
  }

  /** The step that the i-th resource stops at is the first of its own that fails; of the others only the
      snapshot IDs matter. */
  lemma {:induction false} StagesAre(rows: seq<Snapshot>, job: Job, all: seq<Attempt>, verify: bool, i: nat)
    requires i < |all|
    ensures
      var o := all[i].outcome;
      Stages(rows, job, all, verify)[i]
      == if !o.dump.Dumped? then Some(BackupStage)
         else if !o.verified then Some(VerifyStage)
         else if o.checksum == None then Some(ChecksumStage)
         else if o.snapshot == None then Some(StoreStage)
         else if !o.storageVerified then Some(StorageVerifyStage)
         else if o.record != Applied || o.snapshot.value in TakenBefore(rows, all, i) then Some(RecordStage)
         else if verify && !o.restored then Some(RestoreStage)
         else None
    decreases i
  {
    var rows' := RecordOne(rows, job, all[0].outcome);
    if i == 0 {
      assert TakenBefore(rows, all, 0) == SnapshotIds(rows);
    } else {
      NextResource(rows, job, all, i);
      StagesAre(rows', job, all[1..], verify, i - 1);
      assert Stages(rows, job, all, verify)[i] == Stages(rows', job, all[1..], verify)[i - 1];
    }
  }

  /** The error of a job names each resource that stopped and the step it stopped at. */
  lemma {:induction false} ErrorsName(rows: seq<Snapshot>, job: Job, all: seq<Attempt>, verify: bool, e: PipelineError)
    ensures e in ErrorsOf(rows, job, all, verify) <==> Names(all, Stages(rows, job, all, verify), e)
    decreases |all|
  {
    if all == [] {
    } else {
      var rows' := RecordOne(rows, job, all[0].outcome);
      ErrorsName(rows', job, all[1..], verify, e);
      NamesNext(all, Stages(rows, job, all, verify), e);
      assert Stages(rows, job, all, verify)[1..] == Stages(rows', job, all[1..], verify);
    }
  }

  predicate Names(all: seq<Attempt>, stages: seq<Option<Stage>>, e: PipelineError)
    requires |stages| == |all|
  {
    exists i :: 0 <= i < |all| && stages[i].Some? && e == ResourceError(all[i].resource, stages[i].value)
  }

  lemma NamesNext(all: seq<Attempt>, stages: seq<Option<Stage>>, e: PipelineError)
    requires |stages| == |all| && all != []
    ensures Names(all, stages, e)
       <==> (stages[0].Some? && e == ResourceError(all[0].resource, stages[0].value))
            || Names(all[1..], stages[1..], e)
  {
    assert forall i :: 0 <= i < |all[1..]| ==> all[1..][i] == all[i + 1] && stages[1..][i] == stages[i + 1];
    assert forall i :: 0 < i < |all| ==> all[i] == all[1..][i - 1] && stages[i] == stages[1..][i - 1];
  }

  /** The events of one resource, by the step it stops at. */
  lemma ResourceEventsAre(job: Job, resource: string, stage: Option<Stage>, verify: bool)
    requires stage == Some(RestoreStage) ==> verify
    ensures
      var kinds: seq<Kind> :=
        match stage
        case Some(BackupStage) => []
        case Some(VerifyStage) => []
        case Some(ChecksumStage) => []
        case Some(StoreStage) => [ArtifactCreated, UploadStarted]
        case Some(StorageVerifyStage) =>
          [ArtifactCreated, UploadStarted, UploadCompleted, RepositoryVerificationStarted]
        case Some(RecordStage) =>
          [ArtifactCreated, UploadStarted, UploadCompleted, RepositoryVerificationStarted,
           RepositoryVerificationCompleted]
        case Some(RestoreStage) =>
          [ArtifactCreated, UploadStarted, UploadCompleted, RepositoryVerificationStarted,
           RepositoryVerificationCompleted, RestoreVerificationStarted]
        case None =>
          [ArtifactCreated, UploadStarted, UploadCompleted, RepositoryVerificationStarted,
           RepositoryVerificationCompleted]
          + if verify then [RestoreVerificationStarted, RestoreVerificationCompleted] else [];
      Stamp(job, Chain(verify)[..Progress(stage, verify)], resource)
      == seq(|kinds|, i requires 0 <= i < |kinds| => Event(kinds[i], job.id, job.host, job.plugin, resource))
  {
  }

  /** What one resource adds, read off its own outcome: its file stays exactly when a removal failed; the
      repository, the snapshots table and the restore tests get what its calls got to. */
  ghost predicate ResourceDone(w: World, t: World, job: Job, sp: Provider, a: Attempt, verify: bool, ok: bool) {
    var o := a.outcome;
    var gone := o.dump.NoFile? || (if o.dump.Dumped? then o.removed else o.dump.removed);
    var stored := o.dump.Dumped? && o.verified && o.checksum.Some? && o.snapshot.Some?;
    var inserted := stored && o.storageVerified && o.record != Rejected
      && forall k :: 0 <= k < |w.snapshots| ==> w.snapshots[k].id != o.snapshot.value;
    && t.tempFiles == (if gone then w.tempFiles else w.tempFiles + {w.nextTemp})
    && t.stored == w.stored + (if stored then {(sp, o.snapshot.value)} else {})
    && t.snapshots == w.snapshots
       + (if inserted
          then [Snapshot(o.snapshot.value, job.id, job.host, job.plugin, o.dump.size, o.checksum.value)] else [])
    && t.restores == w.restores
       + (if inserted && o.record == Applied && verify
          then [RestoreTest(w.nextTemp, a.resource + "-bop-verify")] else [])
    && t.retentions == w.retentions
    && (ok <==> inserted && o.record == Applied && (verify ==> o.restored))
  }

  lemma ResourceIsDone(w: World, job: Job, sp: Provider, a: Attempt, verify: bool)
    ensures ResourceDone(w, AfterResource(w, job, sp, a, verify), job, sp, a, verify,
                         FailedStage(SnapshotIds(w.snapshots), a.outcome, verify) == None)
  {
  }

  // ---- What is left ----

  /** The files that stay are those whose removal failed, each by its own name. */
  lemma {:induction false} FilesLeftAre(name: nat, all: seq<Attempt>, f: nat)
    ensures f in FilesLeft(name, all)
       <==> exists i :: 0 <= i < |all| && f == name + CreatedBefore(all, i) && !all[i].outcome.dump.NoFile?
              && !(if all[i].outcome.dump.Dumped? then all[i].outcome.removed else all[i].outcome.dump.removed)
    decreases |all|
  {
    if all == [] {
    } else {
      FilesLeftAre(NextName(name, all[0].outcome), all[1..], f);
      forall i | 0 < i < |all|
        ensures name + CreatedBefore(all, i) == NextName(name, all[0].outcome) + CreatedBefore(all[1..], i - 1)
      {
        CreatedNext(all, i);
      }
      assert forall i :: 0 <= i < |all[1..]| ==> all[1..][i] == all[i + 1];
      assert forall i :: 0 < i < |all| ==> all[i] == all[1..][i - 1];
    }
  }

  /** The rows that are added are those of the resources whose insert took effect. */
  lemma {:induction false} RowsAre(rows: seq<Snapshot>, job: Job, all: seq<Attempt>, row: Snapshot)
    ensures row in RecordAll(rows, job, all)
       <==> row in rows
            || exists i ::
                && 0 <= i < |all| && Inserted(rows, all, i)
                && row == Snapshot(all[i].outcome.snapshot.value, job.id, job.host, job.plugin,
                                   all[i].outcome.dump.size, all[i].outcome.checksum.value)
    decreases |all|
  {
    if all == [] {
    } else {
      var rows' := RecordOne(rows, job, all[0].outcome);
      RowsAre(rows', job, all[1..], row);
      forall i | 0 < i < |all|
        ensures Inserted(rows, all, i) <==> Inserted(rows', all[1..], i - 1)
      {
        NextResource(rows, job, all, i);
      }
      assert TakenBefore(rows, all, 0) == SnapshotIds(rows);
      assert forall i :: 0 <= i < |all[1..]| ==> all[1..][i] == all[i + 1];
      assert forall i :: 0 < i < |all| ==> all[i] == all[1..][i - 1];
    }
  }

  /** The repository of the job holds what it took, and no other repository changes. */
  lemma {:induction false} HeldAre(stored: set<(Provider, string)>, sp: Provider, all: seq<Attempt>,
                                   held: (Provider, string))
    ensures held in StoreAll(stored, sp, all)
       <==> held in stored
            || exists i :: 0 <= i < |all| && Accepted(all[i].outcome) && held == (sp, all[i].outcome.snapshot.value)
    decreases |all|
  {
    if all == [] {
    } else {
      HeldAre(StoreOne(stored, sp, all[0].outcome), sp, all[1..], held);
      assert forall i :: 0 <= i < |all[1..]| ==> all[1..][i] == all[i + 1];
      assert forall i :: 0 < i < |all| ==> all[i] == all[1..][i - 1];
    }
  }

  /** A restore test of a recorded resource: its own artifact, into its own scratch target. */
  ghost predicate IsTest(name: nat, rows: seq<Snapshot>, all: seq<Attempt>, test: RestoreTest) {
    exists i ::
      && 0 <= i < |all| && Inserted(rows, all, i) && all[i].outcome.record == Applied
      && test == RestoreTest(name + CreatedBefore(all, i), all[i].resource + "-bop-verify")
  }

  lemma IsTestNext(name: nat, rows: seq<Snapshot>, job: Job, all: seq<Attempt>, test: RestoreTest)
    requires all != []
    ensures
      var o := all[0].outcome;
      IsTest(name, rows, all, test)
      <==> || (Inserted(rows, all, 0) && o.record == Applied
               && test == RestoreTest(name, all[0].resource + "-bop-verify"))
           || IsTest(NextName(name, o), RecordOne(rows, job, o), all[1..], test)
  {
    var o := all[0].outcome;
    forall i | 0 < i < |all|
      ensures Inserted(rows, all, i) <==> Inserted(RecordOne(rows, job, o), all[1..], i - 1)
      ensures name + CreatedBefore(all, i) == NextName(name, o) + CreatedBefore(all[1..], i - 1)
    {
      NextResource(rows, job, all, i);
    }
    assert forall i :: 0 <= i < |all[1..]| ==> all[1..][i] == all[i + 1];
    assert forall i :: 0 < i < |all| ==> all[i] == all[1..][i - 1];
  }

  /** The restore tests of a pipeline: one for every recorded resource, if it verifies at all. */
  lemma {:induction false} TestsAre(name: nat, rows: seq<Snapshot>, job: Job, all: seq<Attempt>, verify: bool,
                                    test: RestoreTest)
    ensures test in TestsOf(name, rows, job, all, verify) <==> verify && IsTest(name, rows, all, test)
    decreases |all|
  {
    if all == [] {
    } else {
      var o := all[0].outcome;
      TestsAre(NextName(name, o), RecordOne(rows, job, o), job, all[1..], verify, test);
      IsTestNext(name, rows, job, all, test);
      assert TakenBefore(rows, all, 0) == SnapshotIds(rows);
    }
  }

  /** Every event of a resource is one of its own, up to the step it stops at. */
  lemma {:induction false} EventsAre(job: Job, all: seq<Attempt>, stages: seq<Option<Stage>>, verify: bool, e: Event)
    requires |stages| == |all|
    ensures e in ResourceEvents(job, all, stages, verify)
       <==> exists i :: 0 <= i < |all|
              && e in Stamp(job, Chain(verify)[..Progress(stages[i], verify)], all[i].resource)
    decreases |all|
  {
    if all == [] {
    } else {
      EventsAre(job, all[1..], stages[1..], verify, e);
      assert forall i :: 0 <= i < |all[1..]| ==> all[1..][i] == all[i + 1] && stages[1..][i] == stages[i + 1];
      assert forall i :: 0 < i < |all| ==> all[i] == all[1..][i - 1] && stages[i] == stages[1..][i - 1];
    }
  }

  // ---- The whole job ----

  /** What the repositories, the snapshots table and the temp directory hold after a job that attempted
      the resources `all`: exactly what the resources' own calls brought there. */
  ghost predicate Left(w: World, t: World, job: Job, sp: Provider, all: seq<Attempt>) {
    && (forall held :: held in t.stored
          <==> held in w.stored
               || exists i :: 0 <= i < |all| && Accepted(all[i].outcome) && held == (sp, all[i].outcome.snapshot.value))
    && w.snapshots <= t.snapshots
    && (forall row :: row in t.snapshots
          <==> row in w.snapshots
               || exists i ::
                   && 0 <= i < |all| && Inserted(w.snapshots, all, i)
                   && row == Snapshot(all[i].outcome.snapshot.value, job.id, job.host, job.plugin,
                                      all[i].outcome.dump.size, all[i].outcome.checksum.value))
    && (forall f :: f in t.tempFiles
          <==> f in w.tempFiles
               || exists i ::
                   && 0 <= i < |all| && f == w.nextTemp + CreatedBefore(all, i) && !all[i].outcome.dump.NoFile?
                   && !(if all[i].outcome.dump.Dumped? then all[i].outcome.removed else all[i].outcome.dump.removed))
    && ((forall i :: 0 <= i < |all| ==>
          || all[i].outcome.dump.NoFile?
          || (if all[i].outcome.dump.Dumped? then all[i].outcome.removed else all[i].outcome.dump.removed)) ==>
        t.tempFiles == w.tempFiles)
  }

  /** What the plugin and the repository were asked to do: one restore test a recorded resource, if restore
      tests are on, and retention once, if there was a discovery to go on. */
  ghost predicate Asked(w: World, t: World, job: Job, sp: Provider, all: seq<Attempt>, discovered: bool, on: bool) {
    && w.restores <= t.restores
    && (!on ==> t.restores == w.restores)
    && (forall test :: test in t.restores[|w.restores|..]
          <==> on && exists i ::
              && 0 <= i < |all| && Inserted(w.snapshots, all, i) && all[i].outcome.record == Applied
              && test == RestoreTest(w.nextTemp + CreatedBefore(all, i), all[i].resource + "-bop-verify"))
    && t.retentions == w.retentions + (if discovered then [Retention(sp, job.host, job.policy)] else [])
  }

  /** What was published: BackupStarted first, the terminal event last, nothing about another job, and
      restore-test events exactly for the resources tested. */
  ghost predicate Published(w: World, t: World, job: Job, all: seq<Attempt>, ok: bool, on: bool) {
    && |w.trace| + 2 <= |t.trace| && w.trace <= t.trace
    && t.trace[|w.trace|] == Event(BackupStarted, job.id, job.host, job.plugin, "")
    && t.trace[|t.trace| - 1]
       == Event(if ok then BackupCompleted else BackupFailed, job.id, job.host, job.plugin, "")
    && (forall e :: e in t.trace[|w.trace|..] ==> e.jobId == job.id && e.host == job.host && e.plugin == job.plugin)
    && (forall r ::
          Event(RestoreVerificationStarted, job.id, job.host, job.plugin, r) in t.trace[|w.trace|..]
          <==> on && exists i ::
              && 0 <= i < |all| && Inserted(w.snapshots, all, i) && all[i].outcome.record == Applied
              && r == all[i].resource)
    && (forall r ::
          Event(RestoreVerificationCompleted, job.id, job.host, job.plugin, r) in t.trace[|w.trace|..]
          <==> on && exists i ::
              && 0 <= i < |all| && Inserted(w.snapshots, all, i) && all[i].outcome.record == Applied
              && r == all[i].resource && all[i].outcome.restored)
  }

  lemma JobLeaves(w: World, srv: Server, job: Job, sp: Provider, out: PipelineOutcome, verify: bool)
    ensures Left(w, AfterJob(w, srv, job, sp, out, verify), job, sp, Attempted(srv, job, out))
  {
    var all := Attempted(srv, job, out);
    var t := AfterJob(w, srv, job, sp, out, verify);
    AfterJobFieldwise(w, srv, job, sp, out, verify);
    FilesAreLeft(w.tempFiles, w.nextTemp, all);
    AddedLast(w.snapshots, job, all);
    forall held
      ensures held in StoreAll(w.stored, sp, all)
         <==> held in w.stored
              || exists i :: 0 <= i < |all| && Accepted(all[i].outcome) && held == (sp, all[i].outcome.snapshot.value)
    {
      HeldAre(w.stored, sp, all, held);
    }
    forall row
      ensures row in RecordAll(w.snapshots, job, all)
         <==> row in w.snapshots
              || exists i ::
                  && 0 <= i < |all| && Inserted(w.snapshots, all, i)
                  && row == Snapshot(all[i].outcome.snapshot.value, job.id, job.host, job.plugin,
                                     all[i].outcome.dump.size, all[i].outcome.checksum.value)
    {
      RowsAre(w.snapshots, job, all, row);
    }
  }

  lemma {:induction false} AddedLast(rows: seq<Snapshot>, job: Job, all: seq<Attempt>)
    ensures rows <= RecordAll(rows, job, all)
    decreases |all|
  {
    if all == [] {
    } else {
      AddedLast(RecordOne(rows, job, all[0].outcome), job, all[1..]);
    }
  }

  lemma FilesAreLeft(temp: set<nat>, name: nat, all: seq<Attempt>)
    ensures
      var after := temp + FilesLeft(name, all);
      && (forall f :: f in after
            <==> f in temp
                 || exists i ::
                     && 0 <= i < |all| && f == name + CreatedBefore(all, i) && !all[i].outcome.dump.NoFile?
                     && !(if all[i].outcome.dump.Dumped? then all[i].outcome.removed else all[i].outcome.dump.removed))
      && ((forall i :: 0 <= i < |all| ==>
            || all[i].outcome.dump.NoFile?
            || (if all[i].outcome.dump.Dumped? then all[i].outcome.removed else all[i].outcome.dump.removed)) ==>
          after == temp)
  {
    forall f
      ensures f in FilesLeft(name, all)
         <==> exists i :: 0 <= i < |all| && f == name + CreatedBefore(all, i) && !all[i].outcome.dump.NoFile?
                && !(if all[i].outcome.dump.Dumped? then all[i].outcome.removed else all[i].outcome.dump.removed)
    {
      FilesLeftAre(name, all, f);
    }
  }

  lemma JobAsks(w: World, srv: Server, job: Job, sp: Provider, out: PipelineOutcome, verify: bool)
    ensures Asked(w, AfterJob(w, srv, job, sp, out, verify), job, sp, Attempted(srv, job, out),
                  Discovered(srv, job, out), verify)
  {
    var all := Attempted(srv, job, out);
    var t := AfterJob(w, srv, job, sp, out, verify);
    AfterJobFieldwise(w, srv, job, sp, out, verify);
    var tests := TestsOf(w.nextTemp, w.snapshots, job, all, verify);
    assert t.restores == w.restores + tests && t.restores[|w.restores|..] == tests;
    AllTests(w.nextTemp, w.snapshots, job, all, verify);
  }

  lemma AllTests(name: nat, rows: seq<Snapshot>, job: Job, all: seq<Attempt>, verify: bool)
    ensures
      var tests := TestsOf(name, rows, job, all, verify);
      && (!verify ==> tests == [])
      && (forall test :: test in tests
            <==> verify && exists i ::
                && 0 <= i < |all| && Inserted(rows, all, i) && all[i].outcome.record == Applied
                && test == RestoreTest(name + CreatedBefore(all, i), all[i].resource + "-bop-verify"))
  {
    var tests := TestsOf(name, rows, job, all, verify);
    forall test
      ensures test in tests <==> verify && IsTest(name, rows, all, test)
    {
      TestsAre(name, rows, job, all, verify, test);
    }
    SomeTest(tests);
  }

  lemma SomeTest(tests: seq<RestoreTest>)
    ensures tests != [] ==> exists test :: test in tests
  {
    if tests != [] {
      assert tests[0] in tests;
    }
  }

  // The events.

  /** Whether the chain's k-th kind is published by a resource that stops at `stage`. */
  lemma InStamp(job: Job, resource: string, stage: Option<Stage>, verify: bool, e: Event)
    ensures e in Stamp(job, Chain(verify)[..Progress(stage, verify)], resource)
       <==> e == Event(e.kind, job.id, job.host, job.plugin, resource)
            && e.kind in Chain(verify)[..Progress(stage, verify)]
  {
    var kinds := Chain(verify)[..Progress(stage, verify)];
    var events := Stamp(job, kinds, resource);
    if e == Event(e.kind, job.id, job.host, job.plugin, resource) && e.kind in kinds {
      var k :| 0 <= k < |kinds| && kinds[k] == e.kind;
      assert events[k] == e;
    }
  }

  lemma TestKinds(stage: Option<Stage>, verify: bool)
    ensures
      var kinds := Chain(verify)[..Progress(stage, verify)];
      && (RestoreVerificationStarted in kinds <==> verify && stage in {None, Some(RestoreStage)})
      && (RestoreVerificationCompleted in kinds <==> verify && stage == None)
  {
    var kinds := Chain(verify)[..Progress(stage, verify)];
    assert |kinds| >= 6 ==> kinds[5] == RestoreVerificationStarted;
    assert |kinds| >= 7 ==> kinds[6] == RestoreVerificationCompleted;
  }

  /** A resource's restore-test events. */
  lemma TestEventsAre(rows: seq<Snapshot>, job: Job, all: seq<Attempt>, verify: bool, i: nat, r: string)
    requires i < |all|
    ensures
      var stage := Stages(rows, job, all, verify)[i];
      var events := Stamp(job, Chain(verify)[..Progress(stage, verify)], all[i].resource);
      var recorded := Inserted(rows, all, i) && all[i].outcome.record == Applied && r == all[i].resource;
      && (Event(RestoreVerificationStarted, job.id, job.host, job.plugin, r) in events <==> verify && recorded)
      && (Event(RestoreVerificationCompleted, job.id, job.host, job.plugin, r) in events
          <==> verify && recorded && all[i].outcome.restored)
  {
    var stage := Stages(rows, job, all, verify)[i];
    StagesAre(rows, job, all, verify, i);
    TestKinds(stage, verify);
    InStamp(job, all[i].resource, stage, verify, Event(RestoreVerificationStarted, job.id, job.host, job.plugin, r));
    InStamp(job, all[i].resource, stage, verify, Event(RestoreVerificationCompleted, job.id, job.host, job.plugin, r));
  }

  lemma TestsOfAll(rows: seq<Snapshot>, job: Job, all: seq<Attempt>, verify: bool, r: string)
    ensures
      var events := ResourceEvents(job, all, Stages(rows, job, all, verify), verify);
      && (Event(RestoreVerificationStarted, job.id, job.host, job.plugin, r) in events
          <==> verify && exists i ::
              && 0 <= i < |all| && Inserted(rows, all, i) && all[i].outcome.record == Applied
              && r == all[i].resource)
      && (Event(RestoreVerificationCompleted, job.id, job.host, job.plugin, r) in events
          <==> verify && exists i ::
              && 0 <= i < |all| && Inserted(rows, all, i) && all[i].outcome.record == Applied
              && r == all[i].resource && all[i].outcome.restored)
  {
    var stages := Stages(rows, job, all, verify);
    EventsAre(job, all, stages, verify, Event(RestoreVerificationStarted, job.id, job.host, job.plugin, r));
    EventsAre(job, all, stages, verify, Event(RestoreVerificationCompleted, job.id, job.host, job.plugin, r));
    forall i | 0 <= i < |all|
      ensures
        var events := Stamp(job, Chain(verify)[..Progress(stages[i], verify)], all[i].resource);
        var recorded := Inserted(rows, all, i) && all[i].outcome.record == Applied && r == all[i].resource;
        && (Event(RestoreVerificationStarted, job.id, job.host, job.plugin, r) in events <==> verify && recorded)
        && (Event(RestoreVerificationCompleted, job.id, job.host, job.plugin, r) in events
            <==> verify && recorded && all[i].outcome.restored)
    {
      TestEventsAre(rows, job, all, verify, i, r);
    }
  }

  /** A resource's event in a job's trace is one of its resources'. */
  lemma InnerEvents(srv: Server, job: Job, rows: seq<Snapshot>, out: PipelineOutcome, verify: bool, e: Event)
    requires e.kind == RestoreVerificationStarted || e.kind == RestoreVerificationCompleted
    ensures
      var all := Attempted(srv, job, out);
      e in JobTrace(srv, job, rows, out, verify)
      <==> e in ResourceEvents(job, all, Stages(rows, job, all, verify), verify)
  {
    if Discovered(srv, job, out) {
      var all := out.discovered.value;
      var mid := ResourceEvents(job, all, Stages(rows, job, all, verify), verify);
      var head := [JobEvent(job, DiscoveryStarted), JobEvent(job, DiscoveryCompleted)];
      var tail := if out.retained then [JobEvent(job, RetentionApplied)] else [];
      assert PipelineEvents(srv, job, rows, out, verify) == head + mid + tail;
      assert e !in head && e !in tail;
    }
  }

  lemma {:induction false} ThroughIff(stages: seq<Option<Stage>>)
    ensures AllThrough(stages) <==> forall i :: 0 <= i < |stages| ==> stages[i] == None
  {
    if stages == [] {
    } else {
      ThroughIff(stages[1..]);
      assert forall i :: 0 < i < |stages| ==> stages[i] == stages[1..][i - 1];
    }
  }

  lemma NoErrorsIff(rows: seq<Snapshot>, job: Job, all: seq<Attempt>, verify: bool)
    ensures ErrorsOf(rows, job, all, verify) == [] <==> forall i :: 0 <= i < |all| ==>
        Inserted(rows, all, i) && all[i].outcome.record == Applied && (verify ==> all[i].outcome.restored)
  {
    var stages := Stages(rows, job, all, verify);
    StagesDecide(rows, job, all, verify);
    ThroughIff(stages);
    forall i | 0 <= i < |all|
      ensures stages[i] == None
         <==> Inserted(rows, all, i) && all[i].outcome.record == Applied && (verify ==> all[i].outcome.restored)
    {
      StagesAre(rows, job, all, verify, i);
    }
  }

  lemma NoneOf(errs: seq<PipelineError>, more: seq<PipelineError>)
    ensures errs + more == [] <==> errs == [] && more == []
  {
  }

  /** A job succeeds exactly when there was a discovery to go on, every resource got through every step of
      its own, and retention was applied. */
  lemma SucceedsIff(srv: Server, job: Job, rows: seq<Snapshot>, out: PipelineOutcome, verify: bool)
    ensures
      var all := Attempted(srv, job, out);
      ResultOf(srv, job, rows, out, verify).Success?
      <==> && Discovered(srv, job, out) && out.retained
           && forall i :: 0 <= i < |all| ==>
               Inserted(rows, all, i) && all[i].outcome.record == Applied && (verify ==> all[i].outcome.restored)
  {
    if Discovered(srv, job, out) {
      var all := Attempted(srv, job, out);
      NoErrorsIff(rows, job, all, verify);
      NoneOf(ErrorsOf(rows, job, all, verify), if out.retained then [] else [RetentionError]);
    }
  }

  lemma JobPublishes(w: World, srv: Server, job: Job, sp: Provider, out: PipelineOutcome, verify: bool)
    ensures Published(w, AfterJob(w, srv, job, sp, out, verify), job, Attempted(srv, job, out),
                      ResultOf(srv, job, w.snapshots, out, verify).Success?, verify)
  {
    var all := Attempted(srv, job, out);
    var t := AfterJob(w, srv, job, sp, out, verify);
    var trace := JobTrace(srv, job, w.snapshots, out, verify);
    TraceAfterJob(w, srv, job, sp, out, verify);
    assert t.trace[|w.trace|..] == trace;
    JobTraceMatches(srv, job, w.snapshots, out, verify);
    forall r
      ensures Event(RestoreVerificationStarted, job.id, job.host, job.plugin, r) in trace
         <==> verify && exists i ::
            && 0 <= i < |all| && Inserted(w.snapshots, all, i) && all[i].outcome.record == Applied
            && r == all[i].resource
      ensures Event(RestoreVerificationCompleted, job.id, job.host, job.plugin, r) in trace
         <==> verify && exists i ::
            && 0 <= i < |all| && Inserted(w.snapshots, all, i) && all[i].outcome.record == Applied
            && r == all[i].resource && all[i].outcome.restored
    {
      TestsOfAll(w.snapshots, job, all, verify, r);
      InnerEvents(srv, job, w.snapshots, out, verify,
                  Event(RestoreVerificationStarted, job.id, job.host, job.plugin, r));
      InnerEvents(srv, job, w.snapshots, out, verify,
                  Event(RestoreVerificationCompleted, job.id, job.host, job.plugin, r));
    }
  }

  /** A job that was marked in_progress, with `on` saying whether restore tests are on. It ends well exactly
      if there was a discovery to go on, every resource got through every step of its own, and retention was
      applied. */
  ghost predicate JobDone(w: World, t: World, srv: Server, job: Job, sp: Provider, out: PipelineOutcome, on: bool,
                          ok: bool) {
    var discovered := out.factoryOk && out.discovered.Some?
      && (out.lookup == Stored(true) || (out.lookup == NotStored && job.plugin in srv.plugins));
    var all := if discovered then out.discovered.value else [];
    && Left(w, t, job, sp, all)
    && Asked(w, t, job, sp, all, discovered, on)
    && Published(w, t, job, all, ok, on)
    && (ok <==> discovered && out.retained && forall i :: 0 <= i < |all| ==>
          Inserted(w.snapshots, all, i) && all[i].outcome.record == Applied && (on ==> all[i].outcome.restored))
  }

  lemma JobIsDone(w: World, srv: Server, job: Job, sp: Provider, out: PipelineOutcome, verify: bool)
    ensures JobDone(w, AfterJob(w, srv, job, sp, out, verify), srv, job, sp, out, verify,
                    ResultOf(srv, job, w.snapshots, out, verify).Success?)
  {
    JobLeaves(w, srv, job, sp, out, verify);
    JobAsks(w, srv, job, sp, out, verify);
    JobPublishes(w, srv, job, sp, out, verify);
    SucceedsIff(srv, job, w.snapshots, out, verify);
    assert Attempted(srv, job, out) == if Discovered(srv, job, out) then out.discovered.value else [];
  }
}
