/** Which event traces, snapshots, errors and files a job can leave: exact characterisations
    of the pipeline's results. */
module Traces {
  import opened Core
  import opened Events
  import opened Pipeline

  // ---- The grammar of a job's trace ----

  /** Where a resource can leave its chain. */
  predicate IsStop(len: nat, verify: bool) {
    len in {0, 2, 4, 5} || (verify && len in {6, 7})
  }

  predicate AllStops(lens: seq<nat>, verify: bool) {
    lens == [] || (IsStop(lens[0], verify) && AllStops(lens[1..], verify))
  }

  predicate AllFull(lens: seq<nat>, verify: bool) {
    lens == [] || (lens[0] == |Chain(verify)| && AllFull(lens[1..], verify))
  }

  /** The chain prefixes of consecutive resources. */
  function Chains(lens: seq<nat>, verify: bool): seq<Kind>
    requires AllStops(lens, verify)
  {
    if lens == [] then [] else Chain(verify)[..lens[0]] + Chains(lens[1..], verify)
  }

  /** Discovery went well and resource i published lens[i] events of its chain. A job whose chains are
      all full and whose retention was applied can still fail, but only without restore tests: the
      insert of a snapshot row publishes nothing, and there it is the last step. */
  ghost predicate Shape(kinds: seq<Kind>, lens: seq<nat>, retained: bool, completed: bool, verify: bool) {
    && AllStops(lens, verify)
    && kinds == [BackupStarted, DiscoveryStarted, DiscoveryCompleted] + Chains(lens, verify)
              + (if retained then [RetentionApplied] else [])
              + [if completed then BackupCompleted else BackupFailed]
    && (completed ==> AllFull(lens, verify) && retained)
    && (!completed && AllFull(lens, verify) && retained ==> !verify && lens != [])
  }

  ghost predicate InGrammar(kinds: seq<Kind>, verify: bool) {
    || kinds == [BackupStarted, BackupFailed]
    || kinds == [BackupStarted, DiscoveryStarted, BackupFailed]
    || exists lens, retained, completed :: Shape(kinds, lens, retained, completed, verify)
  }

  function Lens(stages: seq<Option<Stage>>, verify: bool): (lens: seq<nat>)
    ensures |lens| == |stages|
  {
    if stages == [] then [] else [Progress(stages[0], verify)] + Lens(stages[1..], verify)
  }

  lemma KindsAppend(a: seq<Event>, b: seq<Event>)
    ensures Kinds(a + b) == Kinds(a) + Kinds(b)
  {
  }

  lemma {:induction false} StagesAreStops(snapshots: seq<Snapshot>, job: Job, attempts: seq<Attempt>, verify: bool)
    ensures AllStops(Lens(Stages(snapshots, job, attempts, verify), verify), verify)
    decreases |attempts|
  {
    if attempts == [] {
    } else {
      var stages := Stages(snapshots, job, attempts, verify);
      var rest := RecordOne(snapshots, job, attempts[0].outcome);
      assert stages[1..] == Stages(rest, job, attempts[1..], verify);
      StagesAreStops(rest, job, attempts[1..], verify);
    }
  }

  lemma {:induction false} KindsOfResourceEvents(job: Job, attempts: seq<Attempt>, stages: seq<Option<Stage>>,
                                                 verify: bool)
    requires |stages| == |attempts| && AllStops(Lens(stages, verify), verify)
    ensures Kinds(ResourceEvents(job, attempts, stages, verify)) == Chains(Lens(stages, verify), verify)
    decreases |attempts|
  {
    if attempts == [] {
    } else {
      var first := Stamp(job, Chain(verify)[..Progress(stages[0], verify)], attempts[0].resource);
      KindsAppend(first, ResourceEvents(job, attempts[1..], stages[1..], verify));
      KindsOfResourceEvents(job, attempts[1..], stages[1..], verify);
      assert Kinds(first) == Chain(verify)[..Progress(stages[0], verify)];
    }
  }

  /** No resource stopped anywhere. */
  predicate AllThrough(stages: seq<Option<Stage>>) {
    stages == [] || (stages[0].None? && AllThrough(stages[1..]))
  }

  /** No resource stopped where the trace shows it: without restore tests a failed recording
      comes after the last event of the chain. */
  predicate AllSeemThrough(stages: seq<Option<Stage>>, verify: bool) {
    || stages == []
    || ((stages[0].None? || (!verify && stages[0] == Some(RecordStage))) && AllSeemThrough(stages[1..], verify))
  }

  lemma {:induction false} StagesDecide(snapshots: seq<Snapshot>, job: Job, attempts: seq<Attempt>, verify: bool)
    ensures
      var stages := Stages(snapshots, job, attempts, verify);
      && (ErrorsOf(snapshots, job, attempts, verify) == [] <==> AllThrough(stages))
      && (AllFull(Lens(stages, verify), verify) <==> AllSeemThrough(stages, verify))
      && (AllThrough(stages) ==> AllSeemThrough(stages, verify))
      && (verify && AllSeemThrough(stages, verify) ==> AllThrough(stages))
    decreases |attempts|
  {
    if attempts == [] {
      assert Stages(snapshots, job, attempts, verify) == [];
    } else {
      var stages := Stages(snapshots, job, attempts, verify);
      var rest := RecordOne(snapshots, job, attempts[0].outcome);
      assert stages[1..] == Stages(rest, job, attempts[1..], verify);
      StagesDecide(rest, job, attempts[1..], verify);
    }
  }

  /** Every trace RunJob publishes lies in the grammar. */
  lemma TraceInGrammar(srv: Server, job: Job, snapshots: seq<Snapshot>, out: PipelineOutcome, verify: bool)
    ensures InGrammar(Kinds(JobTrace(srv, job, snapshots, out, verify)), verify)
  {
    var kinds := Kinds(JobTrace(srv, job, snapshots, out, verify));
    if Discovered(srv, job, out) {
      var attempts := out.discovered.value;
      var stages := Stages(snapshots, job, attempts, verify);
      var lens := Lens(stages, verify);
      var completed := ResultOf(srv, job, snapshots, out, verify).Success?;
      StagesAreStops(snapshots, job, attempts, verify);
      StagesDecide(snapshots, job, attempts, verify);
      KindsOfResourceEvents(job, attempts, stages, verify);
      KindsOfJobTrace(srv, job, snapshots, out, verify);
      assert Shape(kinds, lens, out.retained, completed, verify);
    }
  }

  lemma KindsOfJobTrace(srv: Server, job: Job, snapshots: seq<Snapshot>, out: PipelineOutcome, verify: bool)
    requires Discovered(srv, job, out)
    ensures
      var attempts := out.discovered.value;
      var completed := ResultOf(srv, job, snapshots, out, verify).Success?;
      Kinds(JobTrace(srv, job, snapshots, out, verify))
        == [BackupStarted, DiscoveryStarted, DiscoveryCompleted]
         + Kinds(ResourceEvents(job, attempts, Stages(snapshots, job, attempts, verify), verify))
         + (if out.retained then [RetentionApplied] else [])
         + [if completed then BackupCompleted else BackupFailed]
  {
    var attempts := out.discovered.value;
    var mid := ResourceEvents(job, attempts, Stages(snapshots, job, attempts, verify), verify);
    var tail := if out.retained then [JobEvent(job, RetentionApplied)] else [];
    var completed := ResultOf(srv, job, snapshots, out, verify).Success?;
    KindsAround(JobEvent(job, BackupStarted), JobEvent(job, DiscoveryStarted), JobEvent(job, DiscoveryCompleted),
                mid, tail,
                JobEvent(job, if completed then BackupCompleted else BackupFailed));
    assert Kinds(tail) == if out.retained then [RetentionApplied] else [];
  }

  lemma KindsAround(a: Event, b: Event, c: Event, mid: seq<Event>, tail: seq<Event>, end: Event)
    ensures Kinds([a] + ([b, c] + mid + tail) + [end])
        == [a.kind, b.kind, c.kind] + Kinds(mid) + Kinds(tail) + [end.kind]
  {
  }

  /** A job completes exactly when discovery went well, no resource stopped and retention was applied. */
  lemma CompletedIff(srv: Server, job: Job, snapshots: seq<Snapshot>, out: PipelineOutcome, verify: bool)
    ensures
      var trace := JobTrace(srv, job, snapshots, out, verify);
      var attempts := Attempted(srv, job, out);
      trace[|trace| - 1].kind == BackupCompleted <==>
        Discovered(srv, job, out) && AllThrough(Stages(snapshots, job, attempts, verify)) && out.retained
  {
    if Discovered(srv, job, out) {
      StagesDecide(snapshots, job, out.discovered.value, verify);
    }
  }

  predicate RecordFailed(stages: seq<Option<Stage>>) {
    stages != [] && (stages[0] == Some(RecordStage) || RecordFailed(stages[1..]))
  }

  lemma {:induction false} ThroughOrRecordFailed(stages: seq<Option<Stage>>, verify: bool)
    requires AllSeemThrough(stages, verify)
    ensures AllThrough(stages) <==> !RecordFailed(stages)
  {
    if stages == [] {
    } else {
      ThroughOrRecordFailed(stages[1..], verify);
    }
  }

  /** Reading the outcome off the chains: full chains and applied retention are necessary for
      BackupCompleted; they are sufficient exactly when no snapshot failed to be recorded. With
      restore tests that is already visible in the chains. */
  lemma CompletedByChains(srv: Server, job: Job, snapshots: seq<Snapshot>, out: PipelineOutcome, verify: bool)
    requires Discovered(srv, job, out)
    ensures
      var stages := Stages(snapshots, job, out.discovered.value, verify);
      var looksGood := AllFull(Lens(stages, verify), verify) && out.retained;
      var completed := ResultOf(srv, job, snapshots, out, verify).Success?;
      && (completed ==> looksGood)
      && (looksGood ==> (completed <==> !RecordFailed(stages)))
      && (verify ==> (completed <==> looksGood))
  {
    var stages := Stages(snapshots, job, out.discovered.value, verify);
    StagesDecide(snapshots, job, out.discovered.value, verify);
    if AllSeemThrough(stages, verify) {
      ThroughOrRecordFailed(stages, verify);
    }
  }

  const GOOD_OUTCOME: ResourceOutcome :=
    ResourceOutcome(Dumped(1), true, Some("sha256:"), Some("s"), true, Applied, true, true)

  /** The case the chains cannot show: every chain full, retention applied, job failed. */
  lemma FullChainsCanFail(srv: Server, job: Job)
    ensures
      var out := PipelineOutcome(Stored(true), true, Some([Attempt("db", GOOD_OUTCOME.(record := Rejected))]), true);
      && AllFull(Lens(Stages([], job, out.discovered.value, false), false), false)
      && !ResultOf(srv, job, [], out, false).Success?
  {
    var attempts := [Attempt("db", GOOD_OUTCOME.(record := Rejected))];
    var stages := Stages([], job, attempts, false);
    assert SnapshotIds([]) == {};
    assert attempts[1..] == [];
    assert stages == [Some(RecordStage)];
    assert Lens(stages, false) == [5];
    StagesDecide([], job, attempts, false);
  }

  // ---- Every word of the grammar happens ----

  /** Pairwise different snapshot IDs. */
  function Name(k: nat): (name: string)
    ensures |name| == k
  {
    seq(k, _ => 's')
  }

  function OutcomeFor(len: nat, k: nat, verify: bool, broken: bool): ResourceOutcome {
    var good := GOOD_OUTCOME.(snapshot := Some(Name(k)));
    if len == 0 then good.(dump := NoFile)
    else if len == 2 then good.(snapshot := None)
    else if len == 4 then good.(storageVerified := false)
    else if len == 5 && (verify || broken) then good.(record := Rejected)
    else if len == 6 then good.(restored := false)
    else good
  }

  function AttemptsFor(lens: seq<nat>, k: nat, verify: bool, broken: bool): (attempts: seq<Attempt>)
    ensures |attempts| == |lens|
  {
    if lens == [] then []
    else [Attempt("", OutcomeFor(lens[0], k, verify, broken))] + AttemptsFor(lens[1..], k + 1, verify, broken)
  }

  lemma OutcomeForStage(taken: set<string>, len: nat, k: nat, verify: bool, broken: bool)
    requires IsStop(len, verify) && Name(k) !in taken
    ensures
      var stage := FailedStage(taken, OutcomeFor(len, k, verify, broken), verify);
      && Progress(stage, verify) == len
      && (len == |Chain(verify)| && !broken ==> stage.None?)
      && (broken && !verify ==> stage.Some?)
  {
  }

  /** The stages of made-up attempts: the first one's, then the rest's. */
  lemma FirstMadeUp(snapshots: seq<Snapshot>, job: Job, lens: seq<nat>, k: nat, verify: bool, broken: bool)
    returns (stage: Option<Stage>, rest: seq<Snapshot>)
    requires AllStops(lens, verify) && lens != []
    requires forall i :: 0 <= i < |snapshots| ==> |snapshots[i].id| < k
    ensures forall i :: 0 <= i < |rest| ==> |rest[i].id| < k + 1
    ensures Stages(snapshots, job, AttemptsFor(lens, k, verify, broken), verify)
         == [stage] + Stages(rest, job, AttemptsFor(lens[1..], k + 1, verify, broken), verify)
    ensures
      var later := Stages(rest, job, AttemptsFor(lens[1..], k + 1, verify, broken), verify);
      var stages := Stages(snapshots, job, AttemptsFor(lens, k, verify, broken), verify);
      && Lens(stages, verify) == [lens[0]] + Lens(later, verify)
      && (AllThrough(stages) <==> stage.None? && AllThrough(later))
    ensures lens[0] == |Chain(verify)| && !broken ==> stage.None?
    ensures broken && !verify ==> stage.Some?
  {
    var o := OutcomeFor(lens[0], k, verify, broken);
    rest := RecordOne(snapshots, job, o);
    stage := FailedStage(SnapshotIds(snapshots), o, verify);
    StagesCons(snapshots, job, Attempt("", o), AttemptsFor(lens[1..], k + 1, verify, broken), verify);
    ShortIds(snapshots, job, lens[0], k, verify, broken);
    OutcomeForStage(SnapshotIds(snapshots), lens[0], k, verify, broken);
    FirstStage(stage, Stages(rest, job, AttemptsFor(lens[1..], k + 1, verify, broken), verify), verify);
  }

  lemma {:induction false} LensOfMadeUp(snapshots: seq<Snapshot>, job: Job, lens: seq<nat>, k: nat, verify: bool,
                                        broken: bool)
    requires AllStops(lens, verify)
    requires forall i :: 0 <= i < |snapshots| ==> |snapshots[i].id| < k
    ensures Lens(Stages(snapshots, job, AttemptsFor(lens, k, verify, broken), verify), verify) == lens
    decreases |lens|
  {
    if lens == [] {
    } else {
      assert lens == [lens[0]] + lens[1..];
      var stage, rest := FirstMadeUp(snapshots, job, lens, k, verify, broken);
      LensOfMadeUp(rest, job, lens[1..], k + 1, verify, broken);
    }
  }

  lemma {:induction false} MadeUpGetThrough(snapshots: seq<Snapshot>, job: Job, lens: seq<nat>, k: nat, verify: bool)
    requires AllStops(lens, verify) && AllFull(lens, verify)
    requires forall i :: 0 <= i < |snapshots| ==> |snapshots[i].id| < k
    ensures AllThrough(Stages(snapshots, job, AttemptsFor(lens, k, verify, false), verify))
    decreases |lens|
  {
    if lens == [] {
    } else {
      var stage, rest := FirstMadeUp(snapshots, job, lens, k, verify, false);
      MadeUpGetThrough(rest, job, lens[1..], k + 1, verify);
    }
  }

  lemma AttemptsForStages(snapshots: seq<Snapshot>, job: Job, lens: seq<nat>, k: nat, verify: bool, broken: bool)
    requires AllStops(lens, verify)
    requires forall i :: 0 <= i < |snapshots| ==> |snapshots[i].id| < k
    ensures
      var stages := Stages(snapshots, job, AttemptsFor(lens, k, verify, broken), verify);
      && Lens(stages, verify) == lens
      && (!broken && AllFull(lens, verify) ==> AllThrough(stages))
      && (broken && !verify && lens != [] ==> !AllThrough(stages))
  {
    LensOfMadeUp(snapshots, job, lens, k, verify, broken);
    if !broken && AllFull(lens, verify) {
      MadeUpGetThrough(snapshots, job, lens, k, verify);
    }
    if broken && !verify && lens != [] {
      var stage, rest := FirstMadeUp(snapshots, job, lens, k, verify, broken);
    }
  }

  lemma FirstStage(stage: Option<Stage>, later: seq<Option<Stage>>, verify: bool)
    ensures Lens([stage] + later, verify) == [Progress(stage, verify)] + Lens(later, verify)
    ensures AllThrough([stage] + later) <==> stage.None? && AllThrough(later)
  {
    assert ([stage] + later)[1..] == later;
  }

  /** With IDs of fewer than k letters in the table, the k-th name is new, and IDs stay that short. */
  lemma ShortIds(snapshots: seq<Snapshot>, job: Job, len: nat, k: nat, verify: bool, broken: bool)
    requires forall i :: 0 <= i < |snapshots| ==> |snapshots[i].id| < k
    ensures Name(k) !in SnapshotIds(snapshots)
    ensures
      var rest := RecordOne(snapshots, job, OutcomeFor(len, k, verify, broken));
      forall i :: 0 <= i < |rest| ==> |rest[i].id| < k + 1
  {
  }

  lemma StagesCons(snapshots: seq<Snapshot>, job: Job, a: Attempt, more: seq<Attempt>, verify: bool)
    ensures Stages(snapshots, job, [a] + more, verify)
         == [FailedStage(SnapshotIds(snapshots), a.outcome, verify)]
          + Stages(RecordOne(snapshots, job, a.outcome), job, more, verify)
  {
    assert ([a] + more)[1..] == more;
  }

  lemma ShortTracesAreRealised(verify: bool, srv: Server, job: Job)
    ensures Kinds(JobTrace(srv, job, [], PipelineOutcome(LookupError, true, None, true), verify))
        == [BackupStarted, BackupFailed]
    ensures Kinds(JobTrace(srv, job, [], PipelineOutcome(Stored(true), true, None, true), verify))
         == [BackupStarted, DiscoveryStarted, BackupFailed]
  {
  }

  lemma ShapesAreRealised(lens: seq<nat>, retained: bool, completed: bool, verify: bool, srv: Server, job: Job,
                          kinds: seq<Kind>)
    returns (out: PipelineOutcome)
    requires Shape(kinds, lens, retained, completed, verify)
    ensures Kinds(JobTrace(srv, job, [], out, verify)) == kinds
  {
    var attempts := AttemptsFor(lens, 0, verify, !completed);
    out := PipelineOutcome(Stored(true), true, Some(attempts), retained);
    var stages := Stages([], job, attempts, verify);
    AttemptsForStages([], job, lens, 0, verify, !completed);
    StagesDecide([], job, attempts, verify);
    assert ResultOf(srv, job, [], out, verify).Success? <==> completed;
    KindsOfResourceEvents(job, attempts, stages, verify);
    KindsOfJobTrace(srv, job, [], out, verify);
  }

  /** The grammar says no more than the code does: every word of it is the trace of some run. */
  lemma GrammarIsRealised(kinds: seq<Kind>, verify: bool, srv: Server, job: Job) returns (out: PipelineOutcome)
    requires InGrammar(kinds, verify)
    ensures Kinds(JobTrace(srv, job, [], out, verify)) == kinds
  {
    ShortTracesAreRealised(verify, srv, job);
    if kinds == [BackupStarted, BackupFailed] {
      out := PipelineOutcome(LookupError, true, None, true);
    } else if kinds == [BackupStarted, DiscoveryStarted, BackupFailed] {
      out := PipelineOutcome(Stored(true), true, None, true);
    } else {
      var lens, retained, completed :| Shape(kinds, lens, retained, completed, verify);
      out := ShapesAreRealised(lens, retained, completed, verify, srv, job, kinds);
    }
  }

  // ---- Snapshots ----

  /** What a resource contributes to the snapshots table, judged by its own outcome alone. */
  function Kept(job: Job, attempts: seq<Attempt>): seq<Snapshot> {
    if attempts == [] then []
    else (
      var o := attempts[0].outcome;
      (if o.dump.Dumped? && o.verified && o.checksum.Some? && o.snapshot.Some? && o.storageVerified
          && o.record != Rejected
       then [Snapshot(o.snapshot.value, job.id, job.host, job.plugin, o.dump.size, o.checksum.value)] else [])
      + Kept(job, attempts[1..])
    )
  }

  /** No ID of `more` is in `taken` or occurs twice. */
  ghost predicate NewIds(taken: set<string>, more: seq<Snapshot>) {
    && (forall i :: 0 <= i < |more| ==> more[i].id !in taken)
    && (forall i, j :: 0 <= i < j < |more| ==> more[i].id != more[j].id)
  }

  lemma {:induction false} RecordAllAtMost(snapshots: seq<Snapshot>, job: Job, attempts: seq<Attempt>)
    ensures |snapshots| <= |RecordAll(snapshots, job, attempts)| <= |snapshots| + |Kept(job, attempts)|
    decreases |attempts|
  {
    if attempts == [] {
    } else {
      RecordAllAtMost(RecordOne(snapshots, job, attempts[0].outcome), job, attempts[1..]);
    }
  }

  lemma NewIdsSplit(taken: set<string>, snap: Snapshot, more: seq<Snapshot>)
    ensures NewIds(taken, [snap] + more) <==> snap.id !in taken && NewIds(taken + {snap.id}, more)
  {
    var all := [snap] + more;
    assert all[0] == snap;
    assert forall i :: 0 <= i < |more| ==> all[i + 1] == more[i];
    if snap.id !in taken && NewIds(taken + {snap.id}, more) {
      forall i, j | 0 <= i < j < |all|
        ensures all[i].id != all[j].id
      {
        assert all[j] == more[j - 1];
      }
    }
  }

  /** Resource isolation: the recorded snapshots are, in order, those of the resources whose own
      steps up to the insert went well - whatever the other resources, the restore tests and
      retention did - exactly when the repository hands out IDs the table does not hold yet. */
  lemma {:induction false} SnapshotsAreIsolated(snapshots: seq<Snapshot>, job: Job, attempts: seq<Attempt>)
    ensures RecordAll(snapshots, job, attempts) == snapshots + Kept(job, attempts)
       <==> NewIds(SnapshotIds(snapshots), Kept(job, attempts))
    decreases |attempts|
  {
    if attempts == [] {
      assert snapshots + Kept(job, attempts) == snapshots;
    } else {
      var o := attempts[0].outcome;
      SnapshotsAreIsolated(RecordOne(snapshots, job, o), job, attempts[1..]);
      if !Sound(o) || o.record == Rejected {
        assert Kept(job, attempts) == Kept(job, attempts[1..]);
      } else if o.snapshot.value in SnapshotIds(snapshots) {
        ClashIsNoticed(snapshots, job, attempts);
      } else {
        FirstIsNew(snapshots, SnapshotOf(job, o), Kept(job, attempts[1..]));
      }
    }
  }

  lemma FirstIsNew(snapshots: seq<Snapshot>, snap: Snapshot, later: seq<Snapshot>)
    requires snap.id !in SnapshotIds(snapshots)
    ensures (snapshots + [snap]) + later == snapshots + ([snap] + later)
    ensures NewIds(SnapshotIds(snapshots), [snap] + later) <==> NewIds(SnapshotIds(snapshots + [snap]), later)
  {
    NewIdsSplit(SnapshotIds(snapshots), snap, later);
    IdsAfter(snapshots, snap);
  }

  lemma IdsAfter(snapshots: seq<Snapshot>, snap: Snapshot)
    ensures SnapshotIds(snapshots + [snap]) == SnapshotIds(snapshots) + {snap.id}
  {
    var rows := snapshots + [snap];
    assert rows[|snapshots|] == snap;
    assert forall i :: 0 <= i < |snapshots| ==> rows[i] == snapshots[i];
  }

  lemma ClashIsNoticed(snapshots: seq<Snapshot>, job: Job, attempts: seq<Attempt>)
    requires attempts != [] && Sound(attempts[0].outcome) && attempts[0].outcome.record != Rejected
    requires attempts[0].outcome.snapshot.value in SnapshotIds(snapshots)
    ensures RecordAll(snapshots, job, attempts) != snapshots + Kept(job, attempts)
    ensures !NewIds(SnapshotIds(snapshots), Kept(job, attempts))
  {
    RecordAllAtMost(snapshots, job, attempts[1..]);
    assert Kept(job, attempts)[0].id in SnapshotIds(snapshots);
  }

  function FailedCount(stages: seq<Option<Stage>>): nat {
    if stages == [] then 0 else (if stages[0].Some? then 1 else 0) + FailedCount(stages[1..])
  }

  /** The error count is the number of failed resources, plus one if retention failed. */
  lemma {:induction false} ErrorsCountFailures(snapshots: seq<Snapshot>, job: Job, attempts: seq<Attempt>, verify: bool)
    ensures |ErrorsOf(snapshots, job, attempts, verify)| == FailedCount(Stages(snapshots, job, attempts, verify))
    decreases |attempts|
  {
    if attempts == [] {
    } else {
      var rest := RecordOne(snapshots, job, attempts[0].outcome);
      assert Stages(snapshots, job, attempts, verify)[1..] == Stages(rest, job, attempts[1..], verify);
      ErrorsCountFailures(rest, job, attempts[1..], verify);
    }
  }

  lemma ErrorCountOfJob(srv: Server, job: Job, snapshots: seq<Snapshot>, out: PipelineOutcome, verify: bool)
    requires Discovered(srv, job, out)
    ensures
      var result := ResultOf(srv, job, snapshots, out, verify);
      var failures := FailedCount(Stages(snapshots, job, out.discovered.value, verify)) + if out.retained then 0 else 1;
      && (result.Success? <==> failures == 0)
      && (result.Errors? ==> |result.errs| == failures)
  {
    ErrorsCountFailures(snapshots, job, out.discovered.value, verify);
  }

  // ---- Files ----

  lemma {:induction false} FilesLeftAreNamed(name: nat, attempts: seq<Attempt>)
    ensures forall f :: f in FilesLeft(name, attempts) ==> name <= f
    decreases |attempts|
  {
    if attempts == [] {
    } else {
      FilesLeftAreNamed(NextName(name, attempts[0].outcome), attempts[1..]);
    }
  }

  /** How many artifact files could not be removed: by the plugin after a failed dump, by the deferred
      cleanup after a good one. */
  function FailedRemovals(attempts: seq<Attempt>): nat {
    if attempts == [] then 0
    else (
      var o := attempts[0].outcome;
      var removed := o.dump.NoFile? || (if o.dump.Dumped? then o.removed else o.dump.removed);
      (if removed then 0 else 1) + FailedRemovals(attempts[1..])
    )
  }

  /** As many files stay in temp_dir as removals failed; so with every removal working the
      directory is as before, whichever steps of whichever resources failed. */
  lemma {:induction false} TempFilesConserved(temp: set<nat>, name: nat, attempts: seq<Attempt>)
    requires forall f :: f in temp ==> f < name
    ensures |temp + FilesLeft(name, attempts)| == |temp| + FailedRemovals(attempts)
    ensures FailedRemovals(attempts) == 0 <==> temp + FilesLeft(name, attempts) == temp
    decreases |attempts|
  {
    FilesLeftAreNamed(name, attempts);
    assert temp !! FilesLeft(name, attempts);
    LeakCount(name, attempts);
    assert |temp + FilesLeft(name, attempts)| == |temp| + |FilesLeft(name, attempts)|;
  }

  lemma {:induction false} LeakCount(name: nat, attempts: seq<Attempt>)
    ensures |FilesLeft(name, attempts)| == FailedRemovals(attempts)
    decreases |attempts|
  {
    if attempts == [] {
    } else {
      LeakCount(NextName(name, attempts[0].outcome), attempts[1..]);
      FilesLeftAreNamed(name + 1, attempts[1..]);
    }
  }

  // ---- Repositories ----

  /** A snapshot row always names a snapshot its job's repository handed out. */
  lemma {:induction false} RecordedIsStored(snapshots: seq<Snapshot>, stored: set<(Provider, string)>, sp: Provider,
                                            job: Job, attempts: seq<Attempt>)
    ensures
      var rows := RecordAll(snapshots, job, attempts);
      var held := StoreAll(stored, sp, attempts);
      && stored <= held
      && snapshots <= rows
      && (forall i :: |snapshots| <= i < |rows| ==> rows[i].host == job.host && (sp, rows[i].id) in held)
    decreases |attempts|
  {
    if attempts == [] {
    } else {
      var o := attempts[0].outcome;
      RecordedIsStored(RecordOne(snapshots, job, o), StoreOne(stored, sp, o), sp, job, attempts[1..]);
    }
  }

  // ---- The start and the end of a job ----

  lemma {:induction false} ResourceEventsAreInner(job: Job, attempts: seq<Attempt>, stages: seq<Option<Stage>>,
                                                  verify: bool)
    requires |stages| == |attempts|
    ensures Lifecycle(ResourceEvents(job, attempts, stages, verify)) == []
    decreases |attempts|
  {
    if attempts == [] {
    } else {
      var first := Stamp(job, Chain(verify)[..Progress(stages[0], verify)], attempts[0].resource);
      NoLifecycle(first);
      LifecycleAppend(first, ResourceEvents(job, attempts[1..], stages[1..], verify));
      ResourceEventsAreInner(job, attempts[1..], stages[1..], verify);
    }
  }

  /** Exactly one BackupStarted and exactly one terminal event, in this order. */
  lemma JobTraceLifecycle(srv: Server, job: Job, snapshots: seq<Snapshot>, out: PipelineOutcome, verify: bool)
    ensures
      var completed := ResultOf(srv, job, snapshots, out, verify).Success?;
      Lifecycle(JobTrace(srv, job, snapshots, out, verify))
        == [JobEvent(job, BackupStarted), JobEvent(job, if completed then BackupCompleted else BackupFailed)]
  {
    var completed := ResultOf(srv, job, snapshots, out, verify).Success?;
    var first := [JobEvent(job, BackupStarted)];
    var inner := PipelineEvents(srv, job, snapshots, out, verify);
    var last := [JobEvent(job, if completed then BackupCompleted else BackupFailed)];
    PipelineEventsAreInner(srv, job, snapshots, out, verify);
    LifecycleAppend(first + inner, last);
    LifecycleAppend(first, inner);
    assert first[1..] == [] && last[1..] == [];
  }

  lemma PipelineEventsAreInner(srv: Server, job: Job, snapshots: seq<Snapshot>, out: PipelineOutcome, verify: bool)
    ensures Lifecycle(PipelineEvents(srv, job, snapshots, out, verify)) == []
  {
    if Discovered(srv, job, out) {
      var stages := Stages(snapshots, job, out.discovered.value, verify);
      var head := [JobEvent(job, DiscoveryStarted), JobEvent(job, DiscoveryCompleted)];
      var mid := ResourceEvents(job, out.discovered.value, stages, verify);
      var tail := if out.retained then [JobEvent(job, RetentionApplied)] else [];
      ResourceEventsAreInner(job, out.discovered.value, stages, verify);
      AllInner(head, mid, tail);
    } else {
      NoLifecycle(PipelineEvents(srv, job, snapshots, out, verify));
    }
  }

  lemma AllInner(head: seq<Event>, mid: seq<Event>, tail: seq<Event>)
    requires forall i :: 0 <= i < |head| ==> !IsLifecycle(head[i].kind)
    requires forall i :: 0 <= i < |tail| ==> !IsLifecycle(tail[i].kind)
    requires Lifecycle(mid) == []
    ensures Lifecycle(head + mid + tail) == []
  {
    NoLifecycle(head);
    NoLifecycle(tail);
    LifecycleAppend(head + mid, tail);
    LifecycleAppend(head, mid);
  }

  // ---- Whose events ----

  /** Every event of a job says which job, host and plugin it is about. */
  lemma JobTraceMatches(srv: Server, job: Job, snapshots: seq<Snapshot>, out: PipelineOutcome, verify: bool)
    ensures
      var trace := JobTrace(srv, job, snapshots, out, verify);
      forall e :: e in trace ==> e.jobId == job.id && e.host == job.host && e.plugin == job.plugin
  {
    var events := PipelineEvents(srv, job, snapshots, out, verify);
    assert forall e :: e in events ==> e.jobId == job.id && e.host == job.host && e.plugin == job.plugin by {
      PipelineEventsMatch(srv, job, snapshots, out, verify);
    }
  }

  lemma PipelineEventsMatch(srv: Server, job: Job, snapshots: seq<Snapshot>, out: PipelineOutcome, verify: bool)
    ensures
      var events := PipelineEvents(srv, job, snapshots, out, verify);
      forall e :: e in events ==> e.jobId == job.id && e.host == job.host && e.plugin == job.plugin
  {
    if Discovered(srv, job, out) {
      var attempts := out.discovered.value;
      ResourceEventsMatch(job, attempts, Stages(snapshots, job, attempts, verify), verify);
    }
  }

  lemma {:induction false} ResourceEventsMatch(job: Job, attempts: seq<Attempt>, stages: seq<Option<Stage>>,
                                               verify: bool)
    requires |stages| == |attempts|
    ensures
      var events := ResourceEvents(job, attempts, stages, verify);
      forall e :: e in events ==> e.jobId == job.id && e.host == job.host && e.plugin == job.plugin
    decreases |attempts|
  {
    if attempts == [] {
    } else {
      ResourceEventsMatch(job, attempts[1..], stages[1..], verify);
    }
  }
}
