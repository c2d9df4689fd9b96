/** The metrics subscriber and the fan-out that feeds it. */
module Metrics {
  import opened Core
  import opened Events
  import opened Pipeline
  import opened Traces

  /** Counters as the label tuples they were incremented with, in order; durations with the time observed. */
  datatype Metrics = Metrics(
    jobsTotal: seq<(string, string, string)>,
    durations: seq<(string, string, int)>,
    artifacts: seq<(string, string)>,
    retentions: seq<string>,
    restores: seq<(string, string)>,
    jobStarts: map<string, int>)

  const FRESH: Metrics := Metrics([], [], [], [], [], map[])

  /** What one event, stamped `at`, does to the metrics. */
  function Observe(m: Metrics, e: Event, at: int): Metrics {
    match e.kind
    case BackupStarted => m.(jobStarts := m.jobStarts[e.jobId := at])
    case BackupCompleted | BackupFailed =>
      m.(jobsTotal := m.jobsTotal + [(e.host, e.plugin, if e.kind == BackupFailed then "failed" else "completed")],
         durations := m.durations
           + (if e.jobId in m.jobStarts then [(e.host, e.plugin, at - m.jobStarts[e.jobId])] else []),
         jobStarts := m.jobStarts - {e.jobId})
    case ArtifactCreated => m.(artifacts := m.artifacts + [(e.host, e.plugin)])
    case RetentionApplied => m.(retentions := m.retentions + [e.host])
    case RestoreVerificationCompleted => m.(restores := m.restores + [(e.host, e.plugin)])
    case _ => m
  }

  function ObserveAll(m: Metrics, trace: seq<Event>, clock: nat -> int): Metrics
    decreases |trace|
  {
    if trace == [] then m
    else ObserveAll(Observe(m, trace[0], clock(|trace|)), trace[1..], clock)
  }

  function Starts(life: seq<Event>): nat {
    if life == [] then 0 else (if life[0].kind == BackupStarted then 1 else 0) + Starts(life[1..])
  }

  function Held(inFlight: Option<string>): set<string> {
    if inFlight.Some? then {inFlight.value} else {}
  }

  /** Who is in flight after one more event. */
  function Flight(e: Event, inFlight: Option<string>): Option<string> {
    if !IsLifecycle(e.kind) then inFlight else if e.kind == BackupStarted then Some(e.jobId) else None
  }

  lemma ObserveOne(m: Metrics, e: Event, at: int, inFlight: Option<string>)
    requires m.jobStarts.Keys == Held(inFlight)
    requires IsLifecycle(e.kind) ==> Serial([e], inFlight)
    ensures
      var next := Observe(m, e, at);
      && next.jobStarts.Keys == Held(Flight(e, inFlight))
      && |next.jobsTotal| + |next.jobStarts|
         == |m.jobsTotal| + |m.jobStarts| + (if e.kind == BackupStarted then 1 else 0)
      && |next.durations| - |m.durations| == |next.jobsTotal| - |m.jobsTotal|
  {
    var next := Observe(m, e, at);
    assert |m.jobStarts| == |m.jobStarts.Keys| && |next.jobStarts| == |next.jobStarts.Keys|;
    assert next.jobStarts.Keys == Held(Flight(e, inFlight));
  }

  lemma SerialHead(trace: seq<Event>, inFlight: Option<string>)
    requires trace != [] && Serial(Lifecycle(trace), inFlight)
    ensures
      var flight := Flight(trace[0], inFlight);
      var life, rest := Lifecycle(trace), Lifecycle(trace[1..]);
      && (IsLifecycle(trace[0].kind) ==> Serial([trace[0]], inFlight))
      && Serial(rest, flight) && InFlight(life, inFlight) == InFlight(rest, flight)
      && Starts(life) == (if trace[0].kind == BackupStarted then 1 else 0) + Starts(rest)
  {
    var e, rest := trace[0], Lifecycle(trace[1..]);
    if IsLifecycle(e.kind) {
      assert Lifecycle(trace) == [e] + rest && ([e] + rest)[1..] == rest;
      assert [e][1..] == [];
    } else {
      assert Lifecycle(trace) == rest;
    }
  }

  /** Whatever other events come in between: after a serial stream the jobStarts keys are exactly the
      job in flight, every finished job was counted and timed once, and completed plus failed
      is the number of started jobs minus those in flight. */
  lemma {:induction false} MetricsConserved(m: Metrics, trace: seq<Event>, clock: nat -> int, inFlight: Option<string>)
    requires Serial(Lifecycle(trace), inFlight) && m.jobStarts.Keys == Held(inFlight)
    ensures
      var life := Lifecycle(trace);
      var after := ObserveAll(m, trace, clock);
      && after.jobStarts.Keys == Held(InFlight(life, inFlight))
      && |after.jobsTotal| + |after.jobStarts| == |m.jobsTotal| + |m.jobStarts| + Starts(life)
      && |after.durations| - |m.durations| == |after.jobsTotal| - |m.jobsTotal|
    decreases |trace|
  {
    if trace == [] {
    } else {
      var at := clock(|trace|);
      SerialHead(trace, inFlight);
      ObserveOne(m, trace[0], at, inFlight);
      MetricsConserved(Observe(m, trace[0], at), trace[1..], clock, Flight(trace[0], inFlight));
    }
  }

  /** At every moment of a serial stream, observed from a fresh start: at most one job is in flight,
      and completed plus failed is the number of started jobs minus those in flight. */
  lemma MetricsAtEveryMoment(trace: seq<Event>, k: nat, clock: nat -> int)
    requires Serial(Lifecycle(trace), None) && k <= |trace|
    ensures
      var m := ObserveAll(FRESH, trace[..k], clock);
      var life := Lifecycle(trace[..k]);
      && |m.jobStarts| <= 1
      && m.jobStarts.Keys == Held(InFlight(life, None))
      && |m.jobsTotal| == Starts(life) - |m.jobStarts|
      && |m.durations| == |m.jobsTotal|
  {
    assert trace == trace[..k] + trace[k..];
    LifecycleAppend(trace[..k], trace[k..]);
    SerialAppend(Lifecycle(trace[..k]), Lifecycle(trace[k..]), None);
    MetricsConserved(FRESH, trace[..k], clock, None);
    var m := ObserveAll(FRESH, trace[..k], clock);
    assert |m.jobStarts| == |m.jobStarts.Keys|;
  }

  /** One call of RunJob that got as far as BackupStarted. */
  datatype JobRun = JobRun(srv: Server, job: Job, snapshots: seq<Snapshot>, out: PipelineOutcome, verify: bool)

  function TraceOfRuns(runs: seq<JobRun>): seq<Event> {
    if runs == [] then []
    else JobTrace(runs[0].srv, runs[0].job, runs[0].snapshots, runs[0].out, runs[0].verify) + TraceOfRuns(runs[1..])
  }

  /** Jobs run one after the other publish a serial stream, whatever their outcomes. */
  lemma {:induction false} RunsAreSerial(runs: seq<JobRun>)
    ensures Serial(Lifecycle(TraceOfRuns(runs)), None)
    ensures InFlight(Lifecycle(TraceOfRuns(runs)), None) == None
    ensures Starts(Lifecycle(TraceOfRuns(runs))) == |runs|
    decreases |runs|
  {
    if runs == [] {
    } else {
      var r := runs[0];
      var first := JobTrace(r.srv, r.job, r.snapshots, r.out, r.verify);
      var life := Lifecycle(first);
      JobTraceLifecycle(r.srv, r.job, r.snapshots, r.out, r.verify);
      assert life[1..] == [life[1]] && life[1..][1..] == [];
      LifecycleAppend(first, TraceOfRuns(runs[1..]));
      SerialAppend(life, Lifecycle(TraceOfRuns(runs[1..])), None);
      StartsAppend(life, Lifecycle(TraceOfRuns(runs[1..])));
      RunsAreSerial(runs[1..]);
    }
  }

  lemma {:induction false} StartsAppend(a: seq<Event>, b: seq<Event>)
    ensures Starts(a + b) == Starts(a) + Starts(b)
    decreases |a|
  {
    if a == [] {
      assert a + b == b;
    } else {
      assert (a + b)[1..] == a[1..] + b;
      StartsAppend(a[1..], b);
    }
  }

  /** Any sequence of jobs, looked at after any number of its events. */
  lemma MetricsOfRuns(runs: seq<JobRun>, k: nat, clock: nat -> int)
    requires k <= |TraceOfRuns(runs)|
    ensures
      var trace := TraceOfRuns(runs);
      var m := ObserveAll(FRESH, trace[..k], clock);
      && |m.jobStarts| <= 1
      && |m.jobsTotal| == Starts(Lifecycle(trace[..k])) - |m.jobStarts|
      && (k == |trace| ==> m.jobStarts == map[] && |m.jobsTotal| == |runs|)
  {
    var trace := TraceOfRuns(runs);
    RunsAreSerial(runs);
    MetricsAtEveryMoment(trace, k, clock);
    assert trace[..|trace|] == trace;
    var m := ObserveAll(FRESH, trace[..k], clock);
    assert |m.jobStarts| == 0 ==> m.jobStarts == map[];
  }

  // ---- What the counters say ----

  /** Host, plugin and status, if the event ends a job. */
  function LabelsOf(e: Event): seq<(string, string, string)> {
    if e.kind == BackupCompleted then [(e.host, e.plugin, "completed")]
    else if e.kind == BackupFailed then [(e.host, e.plugin, "failed")]
    else []
  }

  function EndLabels(trace: seq<Event>): seq<(string, string, string)> {
    if trace == [] then [] else LabelsOf(trace[0]) + EndLabels(trace[1..])
  }

  lemma OneEndCounts(m: Metrics, e: Event, at: int)
    ensures Observe(m, e, at).jobsTotal == m.jobsTotal + LabelsOf(e)
  {
    assert m.jobsTotal + [] == m.jobsTotal;
  }

  lemma {:induction false} JobsTotalIs(m: Metrics, trace: seq<Event>, clock: nat -> int)
    ensures ObserveAll(m, trace, clock).jobsTotal == m.jobsTotal + EndLabels(trace)
    decreases |trace|
  {
    if trace == [] {
      assert m.jobsTotal + [] == m.jobsTotal;
    } else {
      OneEndCounts(m, trace[0], clock(|trace|));
      JobsTotalIs(Observe(m, trace[0], clock(|trace|)), trace[1..], clock);
      Append3(m.jobsTotal, LabelsOf(trace[0]), EndLabels(trace[1..]));
    }
  }

  lemma {:induction false} EndLabelsAppend(a: seq<Event>, b: seq<Event>)
    ensures EndLabels(a + b) == EndLabels(a) + EndLabels(b)
    decreases |a|
  {
    if a == [] {
      assert a + b == b;
    } else {
      assert (a + b)[1..] == a[1..] + b && (a + b)[0] == a[0];
      EndLabelsAppend(a[1..], b);
      Append3(LabelsOf(a[0]), EndLabels(a[1..]), EndLabels(b));
    }
  }

  /** Only the events that start or end a job matter. */
  lemma {:induction false} EndLabelsOfLifecycle(trace: seq<Event>)
    ensures EndLabels(Lifecycle(trace)) == EndLabels(trace)
    decreases |trace|
  {
    if trace == [] {
    } else {
      EndLabelsOfLifecycle(trace[1..]);
      if IsLifecycle(trace[0].kind) {
        var life := [trace[0]] + Lifecycle(trace[1..]);
        assert life[1..] == Lifecycle(trace[1..]) && life[0] == trace[0];
      } else {
        assert [] + Lifecycle(trace[1..]) == Lifecycle(trace[1..]);
        assert [] + EndLabels(trace[1..]) == EndLabels(trace[1..]);
      }
    }
  }

  lemma JobIsLabelled(r: JobRun)
    ensures EndLabels(JobTrace(r.srv, r.job, r.snapshots, r.out, r.verify))
         == [(r.job.host, r.job.plugin,
              if ResultOf(r.srv, r.job, r.snapshots, r.out, r.verify).Success? then "completed" else "failed")]
  {
    var trace := JobTrace(r.srv, r.job, r.snapshots, r.out, r.verify);
    JobTraceLifecycle(r.srv, r.job, r.snapshots, r.out, r.verify);
    EndLabelsOfLifecycle(trace);
    var completed := ResultOf(r.srv, r.job, r.snapshots, r.out, r.verify).Success?;
    LabelsOfTwo(JobEvent(r.job, BackupStarted), JobEvent(r.job, if completed then BackupCompleted else BackupFailed));
  }

  lemma LabelsOfTwo(a: Event, b: Event)
    ensures EndLabels([a, b]) == LabelsOf(a) + LabelsOf(b)
  {
    assert [a, b][1..] == [b] && [b][1..] == [];
    assert LabelsOf(b) + [] == LabelsOf(b);
    assert EndLabels([b]) == LabelsOf(b) + EndLabels([]);
  }

  function LabelOf(r: JobRun): (string, string, string) {
    (r.job.host, r.job.plugin,
     if ResultOf(r.srv, r.job, r.snapshots, r.out, r.verify).Success? then "completed" else "failed")
  }

  function LabelsOfRuns(runs: seq<JobRun>): (labels: seq<(string, string, string)>)
    ensures |labels| == |runs| && forall i :: 0 <= i < |runs| ==> labels[i] == LabelOf(runs[i])
  {
    seq(|runs|, i requires 0 <= i < |runs| => LabelOf(runs[i]))
  }

  lemma {:induction false} RunsAreLabelled(runs: seq<JobRun>)
    ensures EndLabels(TraceOfRuns(runs)) == LabelsOfRuns(runs)
    decreases |runs|
  {
    if runs == [] {
    } else {
      var r := runs[0];
      RunsAreLabelled(runs[1..]);
      JobIsLabelled(r);
      EndLabelsAppend(JobTrace(r.srv, r.job, r.snapshots, r.out, r.verify), TraceOfRuns(runs[1..]));
      NextLabel(runs);
    }
  }

  lemma NextLabel(runs: seq<JobRun>)
    requires runs != []
    ensures LabelsOfRuns(runs) == [LabelOf(runs[0])] + LabelsOfRuns(runs[1..])
  {
  }

  /** After any sequence of jobs the counter has one increment a job, in order: its host, its plugin, and
      "completed" exactly if the job succeeded. */
  lemma CountersSayOutcomes(runs: seq<JobRun>, clock: nat -> int)
    ensures
      var counted := ObserveAll(FRESH, TraceOfRuns(runs), clock).jobsTotal;
      && |counted| == |runs|
      && forall i :: 0 <= i < |runs| ==>
          var r := runs[i];
          counted[i] == (r.job.host, r.job.plugin,
                         if ResultOf(r.srv, r.job, r.snapshots, r.out, r.verify).Success?
                         then "completed" else "failed")
  {
    JobsTotalIs(FRESH, TraceOfRuns(runs), clock);
    RunsAreLabelled(runs);
    assert [] + EndLabels(TraceOfRuns(runs)) == EndLabels(TraceOfRuns(runs));
  }

  class Publisher {
    var jobsTotal: seq<(string, string, string)>
    var durations: seq<(string, string, int)>
    var artifacts: seq<(string, string)>
    var retentions: seq<string>
    var restores: seq<(string, string)>
    var jobStarts: map<string, int>

    function Now(): Metrics
      reads this
    {
      Metrics(jobsTotal, durations, artifacts, retentions, restores, jobStarts)
    }

    constructor ()
      ensures Now() == FRESH
    {
      jobsTotal, durations, artifacts, retentions, restores := [], [], [], [], [];
      jobStarts := map[];
    }

    method Publish(e: Event, at: int)
      modifies this
      ensures Now() == Observe(old(Now()), e, at)
      ensures
        var end := e.kind == BackupCompleted || e.kind == BackupFailed;
        && jobsTotal == old(jobsTotal)
           + (if end then [(e.host, e.plugin, if e.kind == BackupFailed then "failed" else "completed")] else [])
        && durations == old(durations)
           + (if end && e.jobId in old(jobStarts)
              then [(e.host, e.plugin, at - old(jobStarts)[e.jobId])] else [])
        && artifacts == old(artifacts) + (if e.kind == ArtifactCreated then [(e.host, e.plugin)] else [])
        && retentions == old(retentions) + (if e.kind == RetentionApplied then [e.host] else [])
        && restores == old(restores) + (if e.kind == RestoreVerificationCompleted then [(e.host, e.plugin)] else [])
        && jobStarts == (if e.kind == BackupStarted then old(jobStarts)[e.jobId := at]
                         else if end then old(jobStarts) - {e.jobId} else old(jobStarts))
    {
      if e.kind == BackupStarted {
        jobStarts := jobStarts[e.jobId := at];
      } else if e.kind == BackupCompleted || e.kind == BackupFailed {
        var status := if e.kind == BackupFailed then "failed" else "completed";
        jobsTotal := jobsTotal + [(e.host, e.plugin, status)];
        if e.jobId in jobStarts {
          durations := durations + [(e.host, e.plugin, at - jobStarts[e.jobId])];
        }
        jobStarts := jobStarts - {e.jobId};
      } else if e.kind == ArtifactCreated {
        artifacts := artifacts + [(e.host, e.plugin)];
      } else if e.kind == RetentionApplied {
        retentions := retentions + [e.host];
      } else if e.kind == RestoreVerificationCompleted {
        restores := restores + [(e.host, e.plugin)];
      }
    }
  }

  datatype Subscriber = Log | Counters | Store

  /** How one subscriber takes one event: it handles it, fails to write it, or panics, before or after
      it has handled it. */
  datatype Reaction = Handles | Loses | Panics(handled: bool)

  datatype Control = Returned | Panicking

  /** The fan-out as the controller wires it: log, metrics, event table. The metrics neither lose an
      event nor panic. */
  class Multi {
    const subscribers: seq<Subscriber>
    const metrics: Publisher
    var logged: seq<Event>
    var stored: seq<Event>

    constructor ()
      ensures subscribers == [Log, Counters, Store] && fresh(metrics) && metrics.Now() == FRESH
      ensures logged == [] && stored == []
    {
      subscribers := [Log, Counters, Store];
      metrics := new Publisher();
      logged, stored := [], [];
    }

    /** The subscriber's own Publish. */
    method Deliver(sub: Subscriber, e: Event, at: int, reaction: Reaction) returns (c: Control)
      modifies this, metrics
      ensures metrics.Now() == if sub.Counters? then Observe(old(metrics.Now()), e, at) else old(metrics.Now())
      ensures logged == if sub.Log? && reaction in {Handles, Panics(true)} then old(logged) + [e] else old(logged)
      ensures stored == if sub.Store? && reaction in {Handles, Panics(true)} then old(stored) + [e] else old(stored)
      ensures c == if !sub.Counters? && reaction.Panics? then Panicking else Returned
    {
      c := Returned;
      if sub.Counters? {
        metrics.Publish(e, at);
        return;
      }
      if Handled(reaction) {
        if sub.Log? {
          logged := logged + [e];
        } else {
          stored := stored + [e];
        }
      }
      if reaction.Panics? {
        c := Panicking;
      }
    }

    /** publishOne: the deferred recover ends a panic here. `recover` is true in the program; false is
        the program without that recover. */
    method PublishOne(sub: Subscriber, e: Event, at: int, reaction: Reaction, recover: bool) returns (c: Control)
      modifies this, metrics
      ensures metrics.Now() == if sub.Counters? then Observe(old(metrics.Now()), e, at) else old(metrics.Now())
      ensures logged == if sub.Log? && Handled(reaction) then old(logged) + [e] else old(logged)
      ensures stored == if sub.Store? && Handled(reaction) then old(stored) + [e] else old(stored)
      ensures c == if !recover && !sub.Counters? && reaction.Panics? then Panicking else Returned
    {
      c := Deliver(sub, e, at, reaction);
      if recover {
        c := Returned;
      }
    }

    /** With the recover, the metrics see the event however the others react; without it, exactly unless
        the log, which comes first, panics, and a panic reaches the caller. */
    method Publish(e: Event, at: int, reactions: Subscriber -> Reaction, recover: bool) returns (c: Control)
      requires subscribers == [Log, Counters, Store]
      modifies this, metrics
      ensures metrics.Now()
           == if Sees(reactions(Log), recover) then Observe(old(metrics.Now()), e, at) else old(metrics.Now())
      ensures logged == if Handled(reactions(Log)) then old(logged) + [e] else old(logged)
      ensures stored
           == if Sees(reactions(Log), recover) && Handled(reactions(Store)) then old(stored) + [e] else old(stored)
      ensures c == if !recover && (reactions(Log).Panics? || reactions(Store).Panics?) then Panicking else Returned
    {
      c := Returned;
      var i := 0;
      while i < |subscribers| && c.Returned?
        invariant i <= |subscribers|
        invariant c.Panicking? <==>
          !recover && ((i > 0 && reactions(Log).Panics?) || (i > 2 && reactions(Store).Panics?))
        invariant c.Panicking? ==> i == 1 || i == 3
        invariant i > 1 ==> Sees(reactions(Log), recover)
        invariant metrics.Now() == if i > 1 then Observe(old(metrics.Now()), e, at) else old(metrics.Now())
        invariant logged == if i > 0 && Handled(reactions(Log)) then old(logged) + [e] else old(logged)
        invariant stored == if i > 2 && Handled(reactions(Store)) then old(stored) + [e] else old(stored)
      {
        c := PublishOne(subscribers[i], e, at, reactions(subscribers[i]), recover);
        i := i + 1;
      }
    }

    /** A whole trace; the caller goes on after a panic that reached it. The metrics have observed
        exactly the events that Sees names, which are all of them with the recover: then, after a serial
        trace, the jobStarts keys are the job in flight and completed plus failed is started minus in flight. */
    method PublishAll(trace: seq<Event>, clock: nat -> int, reactions: Reactions, recover: bool)
      requires subscribers == [Log, Counters, Store]
      modifies this, metrics
      ensures metrics.Now() == ObserveSeen(old(metrics.Now()), trace, clock, reactions, recover)
      ensures recover ==> metrics.Now() == ObserveAll(old(metrics.Now()), trace, clock)
      ensures recover && old(metrics.Now()) == FRESH && Serial(Lifecycle(trace), None) ==>
        var life := Lifecycle(trace);
        && metrics.Now().jobStarts.Keys == Held(InFlight(life, None)) && |metrics.Now().jobStarts| <= 1
        && |metrics.Now().jobsTotal| == Starts(life) - |metrics.Now().jobStarts|
    {
      ghost var all := ObserveSeen(metrics.Now(), trace, clock, reactions, recover);
      var i := 0;
      assert trace[0..] == trace;
      while i < |trace|
        invariant i <= |trace|
        invariant all == ObserveSeen(metrics.Now(), trace[i..], clock, reactions, recover)
      {
        assert trace[i..][1..] == trace[i + 1..];
        var left := |trace| - i;
        var c := Publish(trace[i], clock(left), sub => reactions(left, sub), recover);
        i := i + 1;
      }
      if recover {
        SeeingAll(old(metrics.Now()), trace, clock, reactions);
      }
      if recover && old(metrics.Now()) == FRESH && Serial(Lifecycle(trace), None) {
        assert trace[..|trace|] == trace;
        MetricsAtEveryMoment(trace, |trace|, clock);
      }
    }
  }

  predicate Handled(r: Reaction) {
    r.Handles? || (r.Panics? && r.handled)
  }

  /** Whether the metrics get to see an event that the log reacts to so. */
  predicate Sees(log: Reaction, recover: bool) {
    recover || !log.Panics?
  }

  /** How each subscriber reacts to each event; an event is known by how many are left with it. */
  type Reactions = (nat, Subscriber) -> Reaction

  predicate SeenAt(reactions: Reactions, left: nat, recover: bool) {
    Sees(reactions(left, Log), recover)
  }

  /** Observing the events of a trace that the metrics get to see. */
  function ObserveSeen(m: Metrics, trace: seq<Event>, clock: nat -> int, reactions: Reactions, recover: bool): Metrics
    decreases |trace|
  {
    if trace == [] then m
    else
      var next := if SeenAt(reactions, |trace|, recover) then Observe(m, trace[0], clock(|trace|)) else m;
      ObserveSeen(next, trace[1..], clock, reactions, recover)
  }

  lemma {:induction false} SeeingAll(m: Metrics, trace: seq<Event>, clock: nat -> int, reactions: Reactions)
    ensures ObserveSeen(m, trace, clock, reactions, true) == ObserveAll(m, trace, clock)
    decreases |trace|
  {
    if trace == [] {
    } else {
      SeeingAll(Observe(m, trace[0], clock(|trace|)), trace[1..], clock, reactions);
    }
  }

  /** Ends of jobs that the metrics get to see. */
  function SeenEnds(trace: seq<Event>, reactions: Reactions, recover: bool): nat {
    if trace == [] then 0
    else
      var ends := trace[0].kind == BackupCompleted || trace[0].kind == BackupFailed;
      (if SeenAt(reactions, |trace|, recover) && ends then 1 else 0) + SeenEnds(trace[1..], reactions, recover)
  }

  /** Every job's end that is not seen is missing from the count: conservation needs the recover. */
  lemma {:induction false} UnseenEndsAreLost(m: Metrics, trace: seq<Event>, clock: nat -> int, reactions: Reactions,
                                             recover: bool)
    ensures |ObserveSeen(m, trace, clock, reactions, recover).jobsTotal|
         == |m.jobsTotal| + SeenEnds(trace, reactions, recover)
    decreases |trace|
  {
    if trace == [] {
    } else {
      var next := if SeenAt(reactions, |trace|, recover) then Observe(m, trace[0], clock(|trace|)) else m;
      UnseenEndsAreLost(next, trace[1..], clock, reactions, recover);
    }
  }
}
