/** The controller process: startup, the two producers and the consumer, run against the real
    table, queue and controller, each proved to be a run of the transition system. */
module App {
  import opened Core
  import opened Decimal
  import opened Events
  import opened Jobs
  import opened Queue
  import opened Pipeline
  import opened Controller
  import opened Protocol
  import opened Recovery
  import opened Traces

  /** What one turn of the scheduler's loop meets: a plugin, the two clock readings, the insert. */
  datatype Tick = Tick(plugin: string, nanos: nat, queuedAt: int, w: Write)

  /** The steps of a dispatch: an enqueue is attempted only after an acknowledged insert. */
  function DispatchSteps(t: Table, jobs: seq<Job>, writes: seq<Write>): seq<Step>
    requires |jobs| == |writes|
    decreases |jobs|
  {
    if jobs == [] then []
    else
      var job, w := jobs[0], writes[0];
      var created := w == Applied && job.id !in t;
      var t' := if w == Rejected || job.id in t then t else t[job.id := Row(job, Queued)];
      [Create(job, w)] + (if created then [Enqueue(job)] else []) + DispatchSteps(t', jobs[1..], writes[1..])
  }

  /** BackupRequested for every job whose insert was acknowledged. */
  function RequestedEvents(t: Table, jobs: seq<Job>, writes: seq<Write>): seq<Event>
    requires |jobs| == |writes|
    decreases |jobs|
  {
    if jobs == [] then []
    else
      var job, w := jobs[0], writes[0];
      var t' := if w == Rejected || job.id in t then t else t[job.id := Row(job, Queued)];
      (if w == Applied && job.id !in t then [JobEvent(job, BackupRequested)] else [])
      + RequestedEvents(t', jobs[1..], writes[1..])
  }

  /** The table after these inserts. */
  function WithJobs(t: Table, jobs: seq<Job>, writes: seq<Write>): Table
    requires |jobs| == |writes|
    decreases |jobs|
  {
    if jobs == [] then t
    else
      var kept := writes[0] == Rejected || jobs[0].id in t;
      WithJobs(if kept then t else t[jobs[0].id := Row(jobs[0], Queued)], jobs[1..], writes[1..])
  }

  /** Inserts change no row that is there, and add one for every accepted ID that is not. */
  lemma {:induction false} AcceptedHaveRows(t: Table, jobs: seq<Job>, writes: seq<Write>)
    requires |jobs| == |writes|
    ensures
      var after := WithJobs(t, jobs, writes);
      && (forall id :: id in t ==> id in after && after[id] == t[id])
      && (forall i :: 0 <= i < |jobs| && writes[i] != Rejected ==> jobs[i].id in after)
      && (forall id :: id in after && id !in t ==>
            exists i :: 0 <= i < |jobs| && writes[i] != Rejected && jobs[i].id == id && after[id].job == jobs[i])
      && (forall id :: id in after && id !in t ==> after[id].status == Queued)
    decreases |jobs|
  {
    if jobs == [] {
    } else {
      var kept := writes[0] == Rejected || jobs[0].id in t;
      var next := if kept then t else t[jobs[0].id := Row(jobs[0], Queued)];
      AcceptedHaveRows(next, jobs[1..], writes[1..]);
      assert writes[0] != Rejected ==> jobs[0].id in next;
      assert forall i :: 0 < i < |jobs| ==> jobs[i] == jobs[1..][i - 1] && writes[i] == writes[1..][i - 1];
    }
  }

  /** The first accepted job of a new ID has the row. */
  lemma {:induction false} FirstOfItsIdHasTheRow(t: Table, jobs: seq<Job>, writes: seq<Write>, i: nat)
    requires |jobs| == |writes| && i < |jobs| && writes[i] != Rejected && jobs[i].id !in t
    requires forall j :: 0 <= j < i && writes[j] != Rejected ==> jobs[j].id != jobs[i].id
    ensures
      var after := WithJobs(t, jobs, writes);
      jobs[i].id in after && after[jobs[i].id] == Row(jobs[i], Queued)
    decreases |jobs|
  {
    var kept := writes[0] == Rejected || jobs[0].id in t;
    var next := if kept then t else t[jobs[0].id := Row(jobs[0], Queued)];
    if i == 0 {
      AcceptedHaveRows(next, jobs[1..], writes[1..]);
    } else {
      FirstOfItsIdHasTheRow(next, jobs[1..], writes[1..], i - 1);
    }
  }

  /** What dispatching these jobs makes of the model, the published events and the table. */
  ghost function DispatchGoal(capacity: nat, s: State, trace: seq<Event>, jobs: seq<Job>, writes: seq<Write>)
    : (State, seq<Event>, Table)
    requires |jobs| == |writes|
  {
    (Run(capacity, s, DispatchSteps(s.table, jobs, writes)), trace + RequestedEvents(s.table, jobs, writes),
     WithJobs(s.table, jobs, writes))
  }

  function TickJobs(host: string, policy: Policy, ticks: seq<Tick>): (jobs: seq<Job>)
    ensures |jobs| == |ticks|
  {
    seq(|ticks|, i requires 0 <= i < |ticks| =>
      NewJob(host, ticks[i].plugin, policy, ticks[i].nanos, ticks[i].queuedAt))
  }

  function TickWrites(ticks: seq<Tick>): (writes: seq<Write>)
    ensures |writes| == |ticks|
  {
    seq(|ticks|, i requires 0 <= i < |ticks| => ticks[i].w)
  }

  /** The row of an accepted tick's ID: if the ID is new and this tick is the first to have it, the row is the
      job that the tick asked for. */
  ghost predicate FirstTickHasTheRow(before: Table, rows: Table, host: string, policy: Policy, ticks: seq<Tick>, i: nat)
    requires i < |ticks|
  {
    var id := host + "-" + ticks[i].plugin + "-" + Itoa(ticks[i].nanos);
    id in rows &&
    (id !in before && (forall j :: 0 <= j < i && ticks[j].w != Rejected ==>
       host + "-" + ticks[j].plugin + "-" + Itoa(ticks[j].nanos) != id) ==>
     rows[id] == Row(Job(id, host, ticks[i].plugin, policy, ticks[i].queuedAt), Queued))
  }

  /** What a dispatch does to the table, read off the requests and the insert's outcomes: every accepted
      one has a row of its ID, and the first one of a new ID has it with the requested host and plugin, the
      host's policy and its own time; nothing else changes. */
  ghost predicate Dispatched(before: Table, rows: Table, host: string, policy: Policy, ticks: seq<Tick>) {
    && (forall id :: id in before ==> id in rows && rows[id] == before[id])
    && (forall id :: id in rows && id !in before ==>
          exists i ::
            && 0 <= i < |ticks| && ticks[i].w != Rejected
            && id == host + "-" + ticks[i].plugin + "-" + Itoa(ticks[i].nanos)
            && rows[id] == Row(Job(id, host, ticks[i].plugin, policy, ticks[i].queuedAt), Queued))
    && (forall i :: 0 <= i < |ticks| && ticks[i].w != Rejected ==>
          FirstTickHasTheRow(before, rows, host, policy, ticks, i))
  }

  lemma TicksAreDispatched(t: Table, host: string, policy: Policy, ticks: seq<Tick>)
    ensures Dispatched(t, WithJobs(t, TickJobs(host, policy, ticks), TickWrites(ticks)), host, policy, ticks)
  {
    var jobs, writes := TickJobs(host, policy, ticks), TickWrites(ticks);
    var rows := WithJobs(t, jobs, writes);
    AcceptedHaveRows(t, jobs, writes);
    forall id | id in rows && id !in t
      ensures
        exists i ::
          && 0 <= i < |ticks| && ticks[i].w != Rejected
          && id == host + "-" + ticks[i].plugin + "-" + Itoa(ticks[i].nanos)
          && rows[id] == Row(Job(id, host, ticks[i].plugin, policy, ticks[i].queuedAt), Queued)
    {
      var i := NewRowIsATick(t, host, policy, ticks, id);
    }
    forall i | 0 <= i < |ticks| && ticks[i].w != Rejected
      ensures FirstTickHasTheRow(t, rows, host, policy, ticks, i)
    {
      FirstTickHasIt(t, host, policy, ticks, i);
    }
  }

  lemma NewRowIsATick(t: Table, host: string, policy: Policy, ticks: seq<Tick>, id: string) returns (i: nat)
    requires id in WithJobs(t, TickJobs(host, policy, ticks), TickWrites(ticks)) && id !in t
    ensures i < |ticks| && ticks[i].w != Rejected
    ensures id == host + "-" + ticks[i].plugin + "-" + Itoa(ticks[i].nanos)
    ensures WithJobs(t, TickJobs(host, policy, ticks), TickWrites(ticks))[id]
         == Row(Job(id, host, ticks[i].plugin, policy, ticks[i].queuedAt), Queued)
  {
    var jobs, writes := TickJobs(host, policy, ticks), TickWrites(ticks);
    AcceptedHaveRows(t, jobs, writes);
    i :| 0 <= i < |jobs| && writes[i] != Rejected && jobs[i].id == id && WithJobs(t, jobs, writes)[id].job == jobs[i];
  }

  lemma FirstTickHasIt(t: Table, host: string, policy: Policy, ticks: seq<Tick>, i: nat)
    requires i < |ticks| && ticks[i].w != Rejected
    ensures FirstTickHasTheRow(t, WithJobs(t, TickJobs(host, policy, ticks), TickWrites(ticks)), host, policy, ticks, i)
  {
    var jobs, writes := TickJobs(host, policy, ticks), TickWrites(ticks);
    AcceptedHaveRows(t, jobs, writes);
    if jobs[i].id !in t && (forall j :: 0 <= j < i && writes[j] != Rejected ==> jobs[j].id != jobs[i].id) {
      FirstOfItsIdHasTheRow(t, jobs, writes, i);
    }
  }

  function StartedIds(lifecycle: seq<Event>): seq<string> {
    if lifecycle == [] then []
    else (if lifecycle[0].kind == BackupStarted then [lifecycle[0].jobId] else []) + StartedIds(lifecycle[1..])
  }

  function FinishedIds(lifecycle: seq<Event>): seq<(string, bool)> {
    if lifecycle == [] then []
    else (if lifecycle[0].kind == BackupCompleted || lifecycle[0].kind == BackupFailed
          then [(lifecycle[0].jobId, lifecycle[0].kind == BackupCompleted)] else []) + FinishedIds(lifecycle[1..])
  }

  lemma {:induction false} IdsAppend(a: seq<Event>, b: seq<Event>)
    ensures StartedIds(a + b) == StartedIds(a) + StartedIds(b)
    ensures FinishedIds(a + b) == FinishedIds(a) + FinishedIds(b)
    decreases |a|
  {
    if a == [] {
      assert a + b == b;
    } else {
      assert (a + b)[1..] == a[1..] + b;
      IdsAppend(a[1..], b);
    }
  }

  /** What a finished job adds to the started and the finished IDs. */
  lemma JobTraceIds(before: seq<Event>, srv: Server, job: Job, snapshots: seq<Snapshot>, out: PipelineOutcome,
                    verify: bool)
    ensures
      var after := Lifecycle(before + JobTrace(srv, job, snapshots, out, verify));
      var completed := ResultOf(srv, job, snapshots, out, verify).Success?;
      && StartedIds(after) == StartedIds(Lifecycle(before)) + [job.id]
      && FinishedIds(after) == FinishedIds(Lifecycle(before)) + [(job.id, completed)]
  {
    var trace := JobTrace(srv, job, snapshots, out, verify);
    LifecycleAppend(before, trace);
    JobTraceLifecycle(srv, job, snapshots, out, verify);
    IdsAppend(Lifecycle(before), Lifecycle(trace));
    var first, last := Lifecycle(trace)[0], Lifecycle(trace)[1];
    assert Lifecycle(trace) == [first] + [last];
    IdsAppend([first], [last]);
    assert [first][1..] == [] && [last][1..] == [];
  }

  lemma AfterJobIds(w: World, srv: Server, job: Job, sp: Provider, out: PipelineOutcome, verify: bool)
    ensures
      var after := Lifecycle(AfterJob(w, srv, job, sp, out, verify).trace);
      var completed := ResultOf(srv, job, w.snapshots, out, verify).Success?;
      && StartedIds(after) == StartedIds(Lifecycle(w.trace)) + [job.id]
      && FinishedIds(after) == FinishedIds(Lifecycle(w.trace)) + [(job.id, completed)]
  {
    AfterJobFieldwise(w, srv, job, sp, out, verify);
    JobTraceIds(w.trace, srv, job, w.snapshots, out, verify);
  }

  class App {
    const jobs: JobTable
    const queue: Memory
    const ctl: Controller
    ghost var model: State

    /** The concrete table, queue and event stream are the model's, and the model is in its invariant. */
    ghost predicate Valid()
      reads this, jobs, queue, ctl
    {
      && ctl.jobs == jobs
      && ctl.Valid()
      && jobs.rows == model.table
      && queue.jobs == model.queue
      && StartedIds(Lifecycle(ctl.trace)) == model.started
      && FinishedIds(Lifecycle(ctl.trace)) == model.finished
      && Inv(queue.capacity, model)
    }

    constructor (capacity: nat, inventory: map<string, Server>, factories: set<string>, defaultStorage: Provider,
                 storages: map<string, Provider>, verification: bool)
      ensures Valid() && fresh(jobs) && fresh(queue) && fresh(ctl)
      ensures model == INIT && queue.capacity == capacity
    {
      var table := new JobTable();
      jobs := table;
      queue := new Memory(capacity);
      ctl := new Controller(inventory, factories, defaultStorage, storages, verification, table);
      model := INIT;
    }

    /** The process ends, at any point: only the queue is in memory. */
    method Crash()
      requires Valid()
      modifies this, queue
      ensures Valid() && model == Next(queue.capacity, old(model), Step.Crash)
    {
      queue.jobs := [];
      CrashKeeps(queue.capacity, model, Step.Crash);
      model := Next(queue.capacity, model, Step.Crash);
    }

    /** reconcileQueuedJobs after its select: enqueue every listed job, whatever fits. A full queue
        leaves the job queued in the table. */
    method Reconcile(listing: seq<Job>)
      requires Valid() && model.phase == Reconciling(listing)
      modifies this, queue
      ensures Valid()
      ensures model == Run(queue.capacity, old(model), Times(Reenqueue, |listing|))
      ensures model.phase == Reconciling([])
    {
      EnqueueAll(listing);
      ReenqueueAll(queue.capacity, model);
      RefillIs(queue.capacity, model.queue, model.shed, listing);
      RunKeepsInv(queue.capacity, model, Times(Reenqueue, |listing|));
      model := Run(queue.capacity, model, Times(Reenqueue, |listing|));
    }

    /** The loop of reconcileQueuedJobs. */
    method EnqueueAll(listing: seq<Job>)
      requires queue.Valid()
      modifies queue
      ensures queue.Valid()
      ensures queue.jobs == old(queue.jobs) + listing[..Min(queue.capacity - |old(queue.jobs)|, |listing|)]
    {
      for i := 0 to |listing|
        invariant queue.Valid()
        invariant queue.jobs == old(queue.jobs) + listing[..Min(queue.capacity - |old(queue.jobs)|, i)]
      {
        var ok := queue.Enqueue(listing[i]);
      }
    }

    /** FailOrphanedJobs on a process that has just been built. */
    method FailOrphansFirst(w: Write) returns (ok: bool)
      requires Valid() && model.phase.Down?
      modifies this, jobs
      ensures Valid() && ok == (w == Applied)
      ensures model == Next(queue.capacity, Next(queue.capacity, old(model), Boot), FailOrphans(w))
    {
      ghost var booted := Next(queue.capacity, model, Boot);
      NextKeepsInv(queue.capacity, model, Boot);
      NextKeepsInv(queue.capacity, booted, FailOrphans(w));
      var n := jobs.FailOrphanedJobs(w);
      model := Next(queue.capacity, booted, FailOrphans(w));
      ok := n.Some?;
    }

    /** The controller command up to "ready": fail orphans, list, reconcile. `listing` is the
        database's answer to the select, None when the select fails. */
    method Startup(orphans: Write, listing: Option<seq<Job>>) returns (up: bool)
      requires Valid() && model.phase.Down?
      requires listing.Some? ==> IsListing(FailInProgress(jobs.rows), Queued, listing.value)
      modifies this, jobs, queue
      ensures Valid()
      ensures up <==> orphans == Applied && listing.Some?
      ensures up ==> model == Run(queue.capacity, old(model), StartupSteps(listing.value))
      ensures !up ==> model.phase.Down? && model.queue == []
      ensures jobs.rows == if orphans == Rejected then old(jobs.rows) else FailInProgress(old(jobs.rows))
    {
      var swept := FailOrphansFirst(orphans);
      if !swept {
        return false;
      }
      NextKeepsInv(queue.capacity, model, ListQueued(listing));
      model := Next(queue.capacity, model, ListQueued(listing));
      if listing.None? {
        return false;
      }
      StartupUnfolds(queue.capacity, old(model), listing.value);
      StartupCompletes(listing.value);
      return true;
    }

    /** The rest of a startup once the queued rows are listed. */
    method StartupCompletes(listing: seq<Job>)
      requires Valid() && model.phase == Reconciling(listing)
      modifies this, queue
      ensures Valid()
      ensures model == Next(queue.capacity, Run(queue.capacity, old(model), Times(Reenqueue, |listing|)), GoLive)
    {
      Reconcile(listing);
      BecomeLive();
    }

    method BecomeLive()
      requires Valid()
      modifies this`model
      ensures Valid() && model == Next(queue.capacity, old(model), GoLive)
    {
      NextKeepsInv(queue.capacity, model, GoLive);
      model := Next(queue.capacity, model, GoLive);
    }

    /** dispatch: one job for every plugin, each persisted before its enqueue. */
    method Dispatch(host: string, policy: Policy, ticks: seq<Tick>)
      requires Valid() && model.phase.Up?
      modifies this, jobs, queue, ctl`trace
      ensures Valid()
      ensures
        var all, writes := TickJobs(host, policy, ticks), TickWrites(ticks);
        && model == Run(queue.capacity, old(model), DispatchSteps(old(jobs.rows), all, writes))
        && ctl.trace == old(ctl.trace) + RequestedEvents(old(jobs.rows), all, writes)
        && jobs.rows == WithJobs(old(jobs.rows), all, writes)
      ensures Dispatched(old(jobs.rows), jobs.rows, host, policy, ticks)
      ensures forall id :: id in jobs.rows && id !in old(jobs.rows) ==>
        var job := jobs.rows[id].job;
        job.host == host &&
        (ctl.Startable(job) <==> host in ctl.inventory && job.plugin in ctl.factories && ctl.StorageFor(host).Some?)
    {
      ghost var all, writes := TickJobs(host, policy, ticks), TickWrites(ticks);
      ghost var goal := DispatchGoal(queue.capacity, model, ctl.trace, all, writes);
      var i := 0;
      assert all[0..] == all && writes[0..] == writes;
      while i < |ticks|
        invariant i <= |ticks| && Valid() && model.phase.Up?
        invariant goal == DispatchGoal(queue.capacity, model, ctl.trace, all[i..], writes[i..])
      {
        DispatchNext(host, policy, ticks, i, goal);
        i := i + 1;
      }
      TicksAreDispatched(old(jobs.rows), host, policy, ticks);
      assert ctl.trace + [] == ctl.trace;
    }

    /** One turn of dispatch. */
    method DispatchNext(host: string, policy: Policy, ticks: seq<Tick>, i: nat, ghost goal: (State, seq<Event>, Table))
      requires Valid() && model.phase.Up? && i < |ticks|
      requires goal == DispatchGoal(queue.capacity, model, ctl.trace, TickJobs(host, policy, ticks)[i..],
                                    TickWrites(ticks)[i..])
      modifies this, jobs, queue, ctl`trace
      ensures Valid() && model.phase.Up?
      ensures goal == DispatchGoal(queue.capacity, model, ctl.trace, TickJobs(host, policy, ticks)[i + 1..],
                                   TickWrites(ticks)[i + 1..])
    {
      var job := NewJob(host, ticks[i].plugin, policy, ticks[i].nanos, ticks[i].queuedAt);
      ghost var later, writes := TickJobs(host, policy, ticks)[i + 1..], TickWrites(ticks)[i + 1..];
      assert TickJobs(host, policy, ticks)[i..] == [job] + later && TickWrites(ticks)[i..] == [ticks[i].w] + writes;
      DispatchOne(job, ticks[i].w, goal, later, writes);
    }

    /** One job, with others still to come. */
    method DispatchOne(job: Job, w: Write, ghost goal: (State, seq<Event>, Table), ghost later: seq<Job>,
                       ghost writes: seq<Write>)
      requires Valid() && model.phase.Up? && |later| == |writes|
      requires goal == DispatchGoal(queue.capacity, model, ctl.trace, [job] + later, [w] + writes)
      modifies this, jobs, queue, ctl`trace
      ensures Valid() && model.phase.Up?
      ensures goal == DispatchGoal(queue.capacity, model, ctl.trace, later, writes)
    {
      DispatchUnfolds(queue.capacity, model, [job] + later, [w] + writes);
      RequestedUnfolds(ctl.trace, jobs.rows, job, w, later, writes);
      assert ([job] + later)[1..] == later && ([w] + writes)[1..] == writes;
      var created := CreateAndEnqueue(job, w);
    }

    /** The sequence both producers share: insert, and if that was acknowledged, publish and enqueue. */
    method CreateAndEnqueue(job: Job, w: Write) returns (created: bool)
      requires Valid() && model.phase.Up?
      modifies this, jobs, queue, ctl`trace
      ensures Valid() && model.phase.Up?
      ensures ctl.trace
           == old(ctl.trace) + if created then [Event(BackupRequested, job.id, job.host, job.plugin, "")] else []
      ensures created <==> w == Applied && job.id !in old(jobs.rows)
      ensures queue.jobs == if created && |old(queue.jobs)| < queue.capacity then old(queue.jobs) + [job]
                            else old(queue.jobs)
      ensures model == Run(queue.capacity, old(model), [Create(job, w)] + if created then [Enqueue(job)] else [])
      ensures jobs.rows == if w == Rejected || job.id in old(jobs.rows) then old(jobs.rows)
                           else old(jobs.rows)[job.id := Row(job, Queued)]
    {
      CreateThenEnqueue(queue.capacity, model, job, w);
      created := CreateAndPublish(job, w);
      if created {
        EnqueueOnly(job);
      }
    }

    method CreateAndPublish(job: Job, w: Write) returns (created: bool)
      requires Valid() && model.phase.Up?
      modifies this, jobs, ctl`trace
      ensures Valid() && model == Next(queue.capacity, old(model), Create(job, w)) && model.phase.Up?
      ensures created <==> w == Applied && job.id !in old(jobs.rows)
      ensures created ==> job in model.pending
      ensures ctl.trace == old(ctl.trace) + if created then [JobEvent(job, BackupRequested)] else []
      ensures jobs.rows == if w == Rejected || job.id in old(jobs.rows) then old(jobs.rows)
                           else old(jobs.rows)[job.id := Row(job, Queued)]
    {
      NextKeepsInv(queue.capacity, model, Create(job, w));
      RequestIsInner(ctl.trace, job);
      assert ctl.trace + [] == ctl.trace;
      created := jobs.CreateJob(job, w);
      model := Next(queue.capacity, model, Create(job, w));
      if created {
        ctl.Publish(job, BackupRequested, "");
      }
    }

    method EnqueueOnly(job: Job)
      requires Valid() && job in model.pending && model.phase.Up?
      modifies this, queue
      ensures Valid() && model == Next(queue.capacity, old(model), Enqueue(job)) && model.phase.Up?
      ensures queue.jobs == if |old(queue.jobs)| < queue.capacity then old(queue.jobs) + [job] else old(queue.jobs)
    {
      NextKeepsInv(queue.capacity, model, Enqueue(job));
      var queued := queue.Enqueue(job);
      model := Next(queue.capacity, model, Enqueue(job));
    }

    /** POST /v1/backups: the status code, 202 even when the queue is full. `body` is the decoded request,
        None when it is no JSON. */
    method TriggerBackup(body: Option<(string, string)>, lookup: ConfigLookup, factoryOk: bool, tick: Tick)
      returns (code: nat)
      requires Valid() && model.phase.Up? && (body.Some? ==> tick.plugin == body.value.1)
      modifies this, jobs, queue, ctl`trace
      ensures Valid()
      ensures
        var (host, plugin) := if body.Some? then body.value else ("", "");
        var known := host != "" && plugin != "" && host in ctl.inventory && plugin in ctl.factories && factoryOk
          && (lookup == Stored(true) || (lookup == NotStored && plugin in ctl.inventory[host].plugins));
        var id := host + "-" + plugin + "-" + Itoa(tick.nanos);
        if !known then
          && code == (if host == "" || plugin == "" then 400 else 404)
          && model == old(model) && ctl.trace == old(ctl.trace) && jobs.rows == old(jobs.rows)
          && queue.jobs == old(queue.jobs)
        else
          var job := Job(id, host, plugin, ctl.inventory[host].retention, tick.queuedAt);
          && code == (if tick.w == Applied && id !in old(jobs.rows) then 202 else 500)
          && jobs.rows == (if tick.w == Rejected || id in old(jobs.rows) then old(jobs.rows)
                           else old(jobs.rows)[id := Row(job, Queued)])
          && ctl.trace == old(ctl.trace) + (if code == 202 then [Event(BackupRequested, id, host, plugin, "")] else [])
          && queue.jobs == (if code == 202 && |old(queue.jobs)| < queue.capacity then old(queue.jobs) + [job]
                            else old(queue.jobs))
          && model == Run(queue.capacity, old(model), DispatchSteps(old(jobs.rows), [job], [tick.w]))
          && (ctl.Startable(job) <==> ctl.StorageFor(host).Some?)
    {
      if body.None? {
        return 400;
      }
      var (host, plugin) := body.value;
      if host == "" || plugin == "" {
        return 400;
      }
      if host !in ctl.inventory || plugin !in ctl.factories
         || !ConfigResolved(lookup, ctl.inventory[host], plugin) || !factoryOk {
        return 404;
      }
      var job := NewJob(host, plugin, ctl.inventory[host].retention, tick.nanos, tick.queuedAt);
      DispatchUnfolds(queue.capacity, model, [job], [tick.w]);
      assert [job][1..] == [] && [tick.w][1..] == [];
      assert ctl.trace + [] == ctl.trace;
      var created := CreateAndEnqueue(job, tick.w);
      return if created then 202 else 500;
    }

    /** Whether the job's pipeline, if it runs, ends well. */
    ghost function Succeeds(w: World, job: Job, out: PipelineOutcome): bool {
      ctl.Startable(job) && ResultOf(ctl.inventory[job.host], job, w.snapshots, out, ctl.Verify(job.host)).Success?
    }

    /** The controller's state after RunJob on a job with a row. */
    ghost function WorldAfter(w: World, job: Job, o: RunOutcome): World {
      if !ctl.Startable(job) || o.start != Applied then w
      else AfterJob(w, ctl.inventory[job.host], job, ctl.StorageFor(job.host).value, o.pipeline, ctl.Verify(job.host))
    }

    /** The steps of a consumer that takes a job a turn from the head of `waiting`, the k-th ending as
        the k-th outcome says; with nothing waiting it takes none. */
    ghost function ConsumerSteps(w: World, waiting: seq<Job>, outcomes: seq<RunOutcome>): seq<Step>
      decreases |outcomes|
    {
      if outcomes == [] || waiting == [] then []
      else
        var job, o := waiting[0], outcomes[0];
        ConsumeSteps(ctl.Startable(job), o.start, Succeeds(w, job, o.pipeline), o.finish)
        + ConsumerSteps(WorldAfter(w, job, o), waiting[1..], outcomes[1..])
    }

    /** RunJob as the model sees it: the job's row and the events that start and end jobs. */
    method RunObserved(job: Job, o: RunOutcome)
      requires ctl.jobs == jobs && ctl.Valid() && job.id in jobs.rows
      modifies jobs, ctl
      ensures ctl.Valid() && ctl.Now() == WorldAfter(old(ctl.Now()), job, o)
      ensures
        var startable, ok := ctl.Startable(job), Succeeds(old(ctl.Now()), job, o.pipeline);
        var run := startable && o.start == Applied;
        && jobs.rows == RowsAfter(old(jobs.rows), job.id, startable, o.start, ok, o.finish)
        && StartedIds(Lifecycle(ctl.trace)) == old(StartedIds(Lifecycle(ctl.trace))) + (if run then [job.id] else [])
        && FinishedIds(Lifecycle(ctl.trace))
            == old(FinishedIds(Lifecycle(ctl.trace))) + (if run then [(job.id, ok)] else [])
    {
      ghost var before := ctl.Now();
      ghost var started, finished := StartedIds(Lifecycle(before.trace)), FinishedIds(Lifecycle(before.trace));
      if ctl.Startable(job) {
        AfterJobIds(before, ctl.inventory[job.host], job, ctl.StorageFor(job.host).value, o.pipeline,
            ctl.Verify(job.host));
      }
      var err := ctl.RunJob(job, o);
      assert started + [] == started && finished + [] == finished;
    }

    /** One turn of runConsumer. */
    method ConsumeNext(cancelled: bool, o: RunOutcome) returns (got: bool)
      requires Valid() && model.phase.Up? && model.consumer.Idle?
      modifies this, jobs, queue, ctl
      ensures Valid() && model.phase.Up? && model.consumer.Idle?
      ensures got <==> !cancelled && old(queue.jobs) != []
      ensures !got ==> model == old(model) && ctl.Now() == old(ctl.Now()) && queue.jobs == old(queue.jobs)
      ensures got ==>
        var job := old(queue.jobs)[0];
        && model == Run(queue.capacity, old(model),
                        ConsumeSteps(ctl.Startable(job), o.start, Succeeds(old(ctl.Now()), job, o.pipeline), o.finish))
        && ctl.Now() == WorldAfter(old(ctl.Now()), job, o) && queue.jobs == old(queue.jobs)[1..]
    {
      var job := queue.Dequeue(cancelled);
      if job.None? {
        return false;
      }
      ghost var startable, ok := ctl.Startable(job.value), Succeeds(ctl.Now(), job.value, o.pipeline);
      ConsumeOne(queue.capacity, model, startable, o.start, ok, o.finish);
      RunKeepsInv(queue.capacity, model, ConsumeSteps(startable, o.start, ok, o.finish));
      RunObserved(job.value, o);
      model := Run(queue.capacity, model, ConsumeSteps(startable, o.start, ok, o.finish));
      return true;
    }

    /** runConsumer's loop: each turn takes the oldest job and ends it as its outcome says. */
    method RunConsumer(outcomes: seq<RunOutcome>)
      requires Valid() && model.phase.Up? && model.consumer.Idle?
      modifies this, jobs, queue, ctl
      ensures Valid() && model.phase.Up? && model.consumer.Idle?
      ensures model == Run(queue.capacity, old(model), ConsumerSteps(old(ctl.Now()), old(queue.jobs), outcomes))
    {
      ghost var goal := Run(queue.capacity, model, ConsumerSteps(ctl.Now(), queue.jobs, outcomes));
      var i := 0;
      assert outcomes[0..] == outcomes;
      while i < |outcomes|
        invariant i <= |outcomes| && Valid() && model.phase.Up? && model.consumer.Idle?
        invariant goal == Run(queue.capacity, model, ConsumerSteps(ctl.Now(), queue.jobs, outcomes[i..]))
      {
        assert outcomes[i..] == [outcomes[i]] + outcomes[i + 1..];
        ConsumeTurn(goal, outcomes[i], outcomes[i + 1..]);
        i := i + 1;
      }
    }

    /** One turn of the loop, with `later` to come. */
    method ConsumeTurn(ghost goal: State, o: RunOutcome, ghost later: seq<RunOutcome>)
      requires Valid() && model.phase.Up? && model.consumer.Idle?
      requires goal == Run(queue.capacity, model, ConsumerSteps(ctl.Now(), queue.jobs, [o] + later))
      modifies this, jobs, queue, ctl
      ensures Valid() && model.phase.Up? && model.consumer.Idle?
      ensures goal == Run(queue.capacity, model, ConsumerSteps(ctl.Now(), queue.jobs, later))
    {
      assert ([o] + later)[1..] == later;
      if queue.jobs != [] {
        var job := queue.jobs[0];
        RunAppend(queue.capacity, model,
                  ConsumeSteps(ctl.Startable(job), o.start, Succeeds(ctl.Now(), job, o.pipeline), o.finish),
                  ConsumerSteps(WorldAfter(ctl.Now(), job, o), queue.jobs[1..], later));
      }
      var got := ConsumeNext(false, o);
    }
  }

  lemma CreateThenEnqueue(capacity: nat, s: State, job: Job, w: Write)
    ensures Run(capacity, s, [Create(job, w)] + []) == Next(capacity, s, Create(job, w))
    ensures Run(capacity, s, [Create(job, w)] + [Enqueue(job)])
         == Next(capacity, Next(capacity, s, Create(job, w)), Enqueue(job))
  {
    RunUnfolds(capacity, s, Create(job, w), []);
    RunUnfolds(capacity, s, Create(job, w), [Enqueue(job)]);
    RunUnfolds(capacity, Next(capacity, s, Create(job, w)), Enqueue(job), []);
    assert [Enqueue(job)] + [] == [Enqueue(job)];
  }

  lemma RequestIsInner(trace: seq<Event>, job: Job)
    ensures Lifecycle(trace + [JobEvent(job, BackupRequested)]) == Lifecycle(trace)
  {
    LifecycleAppend(trace, [JobEvent(job, BackupRequested)]);
    NoLifecycle([JobEvent(job, BackupRequested)]);
    assert Lifecycle(trace) + [] == Lifecycle(trace);
  }

  lemma RequestedUnfolds(trace: seq<Event>, t: Table, job: Job, w: Write, later: seq<Job>, writes: seq<Write>)
    requires |later| == |writes|
    ensures
      var t' := if w == Rejected || job.id in t then t else t[job.id := Row(job, Queued)];
      trace + RequestedEvents(t, [job] + later, [w] + writes)
      == trace + (if w == Applied && job.id !in t then [JobEvent(job, BackupRequested)] else [])
       + RequestedEvents(t', later, writes)
  {
    assert ([job] + later)[1..] == later && ([w] + writes)[1..] == writes;
    var t' := if w == Rejected || job.id in t then t else t[job.id := Row(job, Queued)];
    var first := if w == Applied && job.id !in t then [JobEvent(job, BackupRequested)] else [];
    assert RequestedEvents(t, [job] + later, [w] + writes) == first + RequestedEvents(t', later, writes);
    Append3(trace, first, RequestedEvents(t', later, writes));
  }

  lemma DispatchUnfolds(capacity: nat, s: State, jobs: seq<Job>, writes: seq<Write>)
    requires |jobs| == |writes| && jobs != []
    ensures
      var job, w := jobs[0], writes[0];
      var created := w == Applied && job.id !in s.table;
      var t := if w == Rejected || job.id in s.table then s.table else s.table[job.id := Row(job, Queued)];
      Run(capacity, s, DispatchSteps(s.table, jobs, writes))
        == Run(capacity, Run(capacity, s, [Create(job, w)] + if created then [Enqueue(job)] else []),
               DispatchSteps(t, jobs[1..], writes[1..]))
  {
    var job, w := jobs[0], writes[0];
    var created := w == Applied && job.id !in s.table;
    var t := if w == Rejected || job.id in s.table then s.table else s.table[job.id := Row(job, Queued)];
    RunAppend(capacity, s, [Create(job, w)] + (if created then [Enqueue(job)] else []),
              DispatchSteps(t, jobs[1..], writes[1..]));
  }
}
