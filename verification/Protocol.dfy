/** One controller process as a transition system over the durable job table, the
    in-memory queue, the producers between insert and enqueue, and the single consumer.
    Every write outcome, every pipeline result and every crash point is a free choice
    of the step, so a run is any list of steps. */
module Protocol {
  import opened Core
  import opened Jobs

  /** Where the consumer stands inside runConsumer/RunJob. */
  datatype Consumer =
    | Idle
    | Picked(job: Job)                // dequeued, row not touched yet
    | Marked(job: Job)                // in_progress written, BackupStarted not published
    | Running(job: Job)               // pipeline running
    | Reported(job: Job, ok: bool)    // terminal event published, terminal status not written

  /** Where the process stands in its startup order. */
  datatype Phase = Down | Booting | Listing | Reconciling(rest: seq<Job>) | Up

  /** `stuck`, `shed`, `started` and `finished` record step outcomes only; no step reads them:
      rows left in_progress without a consumer, queued rows without a place in memory,
      BackupStarted events, terminal events. */
  datatype State = State(
    table: Table,
    queue: seq<Job>,
    pending: set<Job>,                // inserted, enqueue not attempted yet
    consumer: Consumer,
    phase: Phase,
    stuck: set<string>,
    shed: set<string>,
    started: seq<string>,
    finished: seq<(string, bool)>)

  datatype Step =
    | Boot
    | FailOrphans(w: Write)
    | ListQueued(listing: Option<seq<Job>>)
    | Reenqueue
    | GoLive
    | Create(job: Job, w: Write)
    | Enqueue(job: Job)
    | Dequeue
    | Start(startable: bool, w: Write)
    | PublishStarted
    | PublishFinished(ok: bool)
    | Finish(w: Write)
    | Crash

  const INIT: State := State(map[], [], {}, Idle, Down, {}, {}, [], [])

  // ---- Ids ----

  function Ids(jobs: seq<Job>): set<string> {
    set i | 0 <= i < |jobs| :: jobs[i].id
  }

  function SetIds(jobs: set<Job>): set<string> {
    set j | j in jobs :: j.id
  }

  /** The job whose row the consumer has moved to in_progress. */
  function Busy(c: Consumer): set<string> {
    if c.Idle? || c.Picked? then {} else {c.job.id}
  }

  /** Queued rows that memory still knows about. */
  function InMemory(s: State): set<string> {
    Ids(s.queue) + SetIds(s.pending)
    + (if s.consumer.Picked? then {s.consumer.job.id} else {})
    + (if s.phase.Reconciling? then Ids(s.phase.rest) else {})
  }

  // ---- Steps. A step that is not enabled leaves the state alone. ----

  ghost function Next(capacity: nat, s: State, step: Step): State {
    match step
    case Boot => if s.phase.Down? then s.(phase := Booting) else s
    case FailOrphans(w) =>
      if !s.phase.Booting? then s
      else if w == Rejected then s.(phase := Down)
      else s.(table := FailInProgress(s.table), stuck := {}, phase := if w == Applied then Listing else Down)
    case ListQueued(listing) =>
      if !s.phase.Listing? then s
      else if listing == None then s.(phase := Down)
      else if !IsListing(s.table, Queued, listing.value) then s
      else s.(phase := Reconciling(listing.value), shed := {})
    case Reenqueue =>
      if !s.phase.Reconciling? || s.phase.rest == [] then s
      else
        var job := s.phase.rest[0];
        if |s.queue| < capacity
        then s.(phase := Reconciling(s.phase.rest[1..]), queue := s.queue + [job])
        else s.(phase := Reconciling(s.phase.rest[1..]), shed := s.shed + {job.id})
    case GoLive => if s.phase == Reconciling([]) then s.(phase := Up) else s
    case Create(job, w) =>
      if !s.phase.Up? || w == Rejected || job.id in s.table then s
      else
        var t := s.table[job.id := Row(job, Queued)];
        if w == Applied then s.(table := t, pending := s.pending + {job})
        else s.(table := t, shed := s.shed + {job.id})
    case Enqueue(job) =>
      if job !in s.pending then s
      else if |s.queue| < capacity
      then s.(pending := s.pending - {job}, queue := s.queue + [job])
      else s.(pending := s.pending - {job}, shed := s.shed + {job.id})
    case Dequeue =>
      if s.phase.Up? && s.consumer.Idle? && s.queue != []
      then s.(consumer := Picked(s.queue[0]), queue := s.queue[1..]) else s
    case Start(startable, w) =>
      if !s.consumer.Picked? then s
      else
        var job := s.consumer.job;
        if !startable || w == Rejected || job.id !in s.table
        then s.(consumer := Idle, shed := s.shed + {job.id})
        else
          var t := SetStatus(s.table, job.id, InProgress);
          if w == Applied then s.(table := t, consumer := Marked(job))
          else s.(table := t, consumer := Idle, stuck := s.stuck + {job.id})
    case PublishStarted =>
      if s.consumer.Marked?
      then s.(consumer := Running(s.consumer.job), started := s.started + [s.consumer.job.id]) else s
    case PublishFinished(ok) =>
      if s.consumer.Running?
      then s.(consumer := Reported(s.consumer.job, ok), finished := s.finished + [(s.consumer.job.id, ok)]) else s
    case Finish(w) =>
      if !s.consumer.Reported? then s
      else if w == Rejected then s.(consumer := Idle, stuck := s.stuck + {s.consumer.job.id})
      else s.(consumer := Idle, table := SetStatus(s.table, s.consumer.job.id, Terminal(s.consumer.ok)))
    case Crash =>
      s.(queue := [], pending := {}, consumer := Idle, phase := Down,
         stuck := s.stuck + Busy(s.consumer), shed := s.shed + InMemory(s))
  }

  ghost function Run(capacity: nat, s: State, steps: seq<Step>): State
    decreases |steps|
  {
    if steps == [] then s else Run(capacity, Next(capacity, s, steps[0]), steps[1..])
  }

  // ---- The inductive invariant ----

  predicate Waiting(t: Table, job: Job) {
    job.id in t && t[job.id] == Row(job, Queued)
  }

  /** A line of waiting jobs without repetition. */
  ghost predicate Line(t: Table, jobs: seq<Job>) {
    && (forall i :: 0 <= i < |jobs| ==> Waiting(t, jobs[i]))
    && (forall i, j :: 0 <= i < j < |jobs| ==> jobs[i].id != jobs[j].id)
  }

  ghost predicate ConsumerOk(s: State) {
    match s.consumer
    case Idle => true
    case Picked(job) => Waiting(s.table, job) && job !in s.queue && job !in s.pending
    case Marked(job) => job.id in s.table && s.table[job.id] == Row(job, InProgress) && job.id !in s.started
    case _ => s.consumer.job.id in s.table && s.table[s.consumer.job.id] == Row(s.consumer.job, InProgress)
  }

  ghost predicate PhaseOk(s: State) {
    && (!s.phase.Up? ==> s.consumer.Idle? && s.pending == {})
    && (!s.phase.Up? && !s.phase.Reconciling? ==> s.queue == [])
    && (s.phase.Reconciling? ==>
          Line(s.table, s.phase.rest) && (forall i :: 0 <= i < |s.phase.rest| ==> s.phase.rest[i] !in s.queue))
    && (s.phase.Listing? || s.phase.Reconciling? ==> s.stuck == {})
  }

  ghost predicate PlacesOk(capacity: nat, s: State) {
    && |s.queue| <= capacity
    && (forall id :: id in s.table ==> s.table[id].job.id == id)
    && Line(s.table, s.queue)
    && (forall job :: job in s.pending ==> Waiting(s.table, job) && job !in s.queue)
    && ConsumerOk(s)
    && PhaseOk(s)
  }

  /** The books balance: every in_progress row is the running job's or stuck, every
      queued row is in memory or shed, never both. */
  ghost predicate BooksOk(s: State) {
    && WithStatus(s.table, InProgress) == s.stuck + Busy(s.consumer)
    && s.stuck !! Busy(s.consumer)
    && WithStatus(s.table, Queued) == s.shed + InMemory(s)
    && s.shed !! InMemory(s)
  }

  ghost predicate EventsOk(s: State) {
    && (forall i, j :: 0 <= i < j < |s.started| ==> s.started[i] != s.started[j])
    && (forall i :: 0 <= i < |s.started| ==> s.started[i] in s.table && s.table[s.started[i]].status != Queued)
    && (s.consumer.Running? || s.consumer.Reported? ==> s.consumer.job.id in s.started)
    && (forall i, j :: 0 <= i < j < |s.finished| ==> s.finished[i].0 != s.finished[j].0)
    && (forall i :: 0 <= i < |s.finished| ==> s.finished[i].0 in s.started)
    && (s.consumer.Running? ==> forall i :: 0 <= i < |s.finished| ==> s.finished[i].0 != s.consumer.job.id)
    && (s.consumer.Reported? ==> (s.consumer.job.id, s.consumer.ok) in s.finished)
    && (forall id :: id in s.table && s.table[id].status == Completed ==> (id, true) in s.finished)
  }

  ghost predicate Inv(capacity: nat, s: State) {
    PlacesOk(capacity, s) && BooksOk(s) && EventsOk(s)
  }

  // ---- Preservation ----

  lemma IdsSplit(jobs: seq<Job>, job: Job)
    ensures Ids(jobs + [job]) == Ids(jobs) + {job.id}
    ensures jobs != [] ==> Ids(jobs) == {jobs[0].id} + Ids(jobs[1..])
  {
    assert forall i :: 0 <= i < |jobs| ==> (jobs + [job])[i] == jobs[i];
    assert (jobs + [job])[|jobs|] == job;
    assert forall i :: 1 <= i < |jobs| ==> jobs[1..][i - 1] == jobs[i];
  }

  lemma BootKeeps(capacity: nat, s: State, step: Step)
    requires Inv(capacity, s) && step.Boot?
    ensures Inv(capacity, Next(capacity, s, step))
  {
  }

  lemma FailOrphansKeepsBooks(capacity: nat, s: State, step: Step)
    requires PlacesOk(capacity, s) && BooksOk(s) && step.FailOrphans?
    ensures BooksOk(Next(capacity, s, step))
  {
  }

  lemma FailOrphansKeepsEvents(capacity: nat, s: State, step: Step)
    requires PlacesOk(capacity, s) && EventsOk(s) && step.FailOrphans?
    ensures EventsOk(Next(capacity, s, step))
  {
  }

  lemma FailOrphansKeeps(capacity: nat, s: State, step: Step)
    requires Inv(capacity, s) && step.FailOrphans?
    ensures Inv(capacity, Next(capacity, s, step))
  {
    FailOrphansKeepsBooks(capacity, s, step);
    FailOrphansKeepsEvents(capacity, s, step);
    FailOrphansKeepsPlaces(capacity, s, step);
  }

  lemma FailOrphansKeepsPlaces(capacity: nat, s: State, step: Step)
    requires PlacesOk(capacity, s) && step.FailOrphans?
    ensures PlacesOk(capacity, Next(capacity, s, step))
  {
  }

  lemma ListQueuedKeeps(capacity: nat, s: State, step: Step)
    requires Inv(capacity, s) && step.ListQueued?
    ensures Inv(capacity, Next(capacity, s, step))
  {
    if s.phase.Listing? && step.listing.Some? && IsListing(s.table, Queued, step.listing.value) {
      assert WithStatus(s.table, Queued) == Ids(step.listing.value);
    }
  }

  lemma ReenqueueKeepsPlaces(capacity: nat, s: State, step: Step)
    requires PlacesOk(capacity, s) && step.Reenqueue?
    ensures PlacesOk(capacity, Next(capacity, s, step))
  {
  }

  /** A job that goes from the listing to the queue stays in memory. */
  lemma RoomKeepsMemory(s: State)
    requires s.phase.Reconciling? && s.phase.rest != []
    ensures
      var rest := s.phase.rest;
      InMemory(s.(phase := Reconciling(rest[1..]), queue := s.queue + [rest[0]])) == InMemory(s)
  {
    IdsSplit(s.phase.rest, s.phase.rest[0]);
    IdsSplit(s.queue, s.phase.rest[0]);
  }

  /** A job for which there is no room leaves it. */
  lemma NoRoomTakesFromMemory(capacity: nat, s: State)
    requires PlacesOk(capacity, s) && s.phase.Reconciling? && s.phase.rest != []
    ensures
      var rest := s.phase.rest;
      InMemory(s.(phase := Reconciling(rest[1..]))) == InMemory(s) - {rest[0].id} && rest[0].id in InMemory(s)
  {
    IdsSplit(s.phase.rest, s.phase.rest[0]);
  }

  lemma ReenqueueKeepsBooks(capacity: nat, s: State, step: Step)
    requires PlacesOk(capacity, s) && BooksOk(s) && step.Reenqueue?
    ensures BooksOk(Next(capacity, s, step))
  {
    if s.phase.Reconciling? && s.phase.rest != [] {
      RoomKeepsMemory(s);
      NoRoomTakesFromMemory(capacity, s);
    }
  }

  lemma ReenqueueKeepsEvents(capacity: nat, s: State, step: Step)
    requires PlacesOk(capacity, s) && EventsOk(s) && step.Reenqueue?
    ensures EventsOk(Next(capacity, s, step))
  {
  }

  lemma GoLiveKeeps(capacity: nat, s: State, step: Step)
    requires Inv(capacity, s) && step.GoLive?
    ensures Inv(capacity, Next(capacity, s, step))
  {
  }

  lemma CreateKeepsPlaces(capacity: nat, s: State, step: Step)
    requires PlacesOk(capacity, s) && step.Create?
    ensures PlacesOk(capacity, Next(capacity, s, step))
  {
  }

  lemma CreateKeepsBooks(capacity: nat, s: State, step: Step)
    requires PlacesOk(capacity, s) && BooksOk(s) && step.Create?
    ensures BooksOk(Next(capacity, s, step))
  {
  }

  lemma CreateKeepsEvents(capacity: nat, s: State, step: Step)
    requires PlacesOk(capacity, s) && EventsOk(s) && step.Create?
    ensures EventsOk(Next(capacity, s, step))
  {
  }

  lemma EnqueueKeepsPlaces(capacity: nat, s: State, step: Step)
    requires PlacesOk(capacity, s) && step.Enqueue?
    ensures PlacesOk(capacity, Next(capacity, s, step))
  {
  }

  lemma EnqueueKeepsBooks(capacity: nat, s: State, step: Step)
    requires PlacesOk(capacity, s) && BooksOk(s) && step.Enqueue?
    ensures BooksOk(Next(capacity, s, step))
  {
    IdsSplit(s.queue, step.job);
    if step.job in s.pending {
      var t := Next(capacity, s, step);
      if |s.queue| < capacity {
        assert InMemory(t) == InMemory(s);
      } else {
        assert InMemory(t) + {step.job.id} == InMemory(s);
      }
    }
  }

  lemma EnqueueKeepsEvents(capacity: nat, s: State, step: Step)
    requires PlacesOk(capacity, s) && EventsOk(s) && step.Enqueue?
    ensures EventsOk(Next(capacity, s, step))
  {
  }

  lemma DequeueKeeps(capacity: nat, s: State, step: Step)
    requires Inv(capacity, s) && step.Dequeue?
    ensures Inv(capacity, Next(capacity, s, step))
  {
    if s.queue != [] {
      IdsSplit(s.queue, s.queue[0]);
    }
  }

  lemma StartKeepsPlaces(capacity: nat, s: State, step: Step)
    requires Inv(capacity, s) && step.Start?
    ensures PlacesOk(capacity, Next(capacity, s, step))
  {
  }

  lemma StartKeepsBooks(capacity: nat, s: State, step: Step)
    requires PlacesOk(capacity, s) && BooksOk(s) && step.Start?
    ensures BooksOk(Next(capacity, s, step))
  {
  }

  lemma StartKeepsEvents(capacity: nat, s: State, step: Step)
    requires PlacesOk(capacity, s) && EventsOk(s) && step.Start?
    ensures EventsOk(Next(capacity, s, step))
  {
  }

  lemma PublishStartedKeeps(capacity: nat, s: State, step: Step)
    requires Inv(capacity, s) && step.PublishStarted?
    ensures Inv(capacity, Next(capacity, s, step))
  {
  }

  lemma PublishFinishedKeeps(capacity: nat, s: State, step: Step)
    requires Inv(capacity, s) && step.PublishFinished?
    ensures Inv(capacity, Next(capacity, s, step))
  {
  }

  lemma FinishKeepsPlaces(capacity: nat, s: State, step: Step)
    requires PlacesOk(capacity, s) && step.Finish?
    ensures PlacesOk(capacity, Next(capacity, s, step))
  {
  }

  lemma FinishKeepsBooks(capacity: nat, s: State, step: Step)
    requires PlacesOk(capacity, s) && BooksOk(s) && step.Finish?
    ensures BooksOk(Next(capacity, s, step))
  {
  }

  lemma FinishKeepsEvents(capacity: nat, s: State, step: Step)
    requires PlacesOk(capacity, s) && EventsOk(s) && step.Finish?
    ensures EventsOk(Next(capacity, s, step))
  {
  }

  lemma CrashKeeps(capacity: nat, s: State, step: Step)
    requires Inv(capacity, s) && step.Crash?
    ensures Inv(capacity, Next(capacity, s, step))
  {
  }

  /** Every step keeps the invariant. */
  lemma NextKeepsInv(capacity: nat, s: State, step: Step)
    requires Inv(capacity, s)
    ensures Inv(capacity, Next(capacity, s, step))
  {
    match step
    case Boot => BootKeeps(capacity, s, step);
    case FailOrphans(_) => FailOrphansKeeps(capacity, s, step);
    case ListQueued(_) => ListQueuedKeeps(capacity, s, step);
    case Reenqueue =>
      ReenqueueKeepsPlaces(capacity, s, step);
      ReenqueueKeepsBooks(capacity, s, step);
      ReenqueueKeepsEvents(capacity, s, step);
    case GoLive => GoLiveKeeps(capacity, s, step);
    case Create(_, _) =>
      CreateKeepsPlaces(capacity, s, step);
      CreateKeepsBooks(capacity, s, step);
      CreateKeepsEvents(capacity, s, step);
    case Enqueue(_) =>
      EnqueueKeepsPlaces(capacity, s, step);
      EnqueueKeepsBooks(capacity, s, step);
      EnqueueKeepsEvents(capacity, s, step);
    case Dequeue => DequeueKeeps(capacity, s, step);
    case Start(_, _) =>
      StartKeepsPlaces(capacity, s, step);
      StartKeepsBooks(capacity, s, step);
      StartKeepsEvents(capacity, s, step);
    case PublishStarted => PublishStartedKeeps(capacity, s, step);
    case PublishFinished(_) => PublishFinishedKeeps(capacity, s, step);
    case Finish(_) =>
      FinishKeepsPlaces(capacity, s, step);
      FinishKeepsBooks(capacity, s, step);
      FinishKeepsEvents(capacity, s, step);
    case Crash => CrashKeeps(capacity, s, step);
  }

  lemma {:induction false} RunKeepsInv(capacity: nat, s: State, steps: seq<Step>)
    requires Inv(capacity, s)
    ensures Inv(capacity, Run(capacity, s, steps))
    decreases |steps|
  {
    if steps == [] {
    } else {
      NextKeepsInv(capacity, s, steps[0]);
      RunKeepsInv(capacity, Next(capacity, s, steps[0]), steps[1..]);
    }
  }

  lemma RunUnfolds(capacity: nat, s: State, step: Step, rest: seq<Step>)
    ensures Run(capacity, s, [step] + rest) == Run(capacity, Next(capacity, s, step), rest)
  {
    assert ([step] + rest)[1..] == rest;
  }

  lemma {:induction false} RunAppend(capacity: nat, s: State, first: seq<Step>, second: seq<Step>)
    ensures Run(capacity, s, first + second) == Run(capacity, Run(capacity, s, first), second)
    decreases |first|
  {
    if first == [] {
      assert first + second == second;
    } else {
      assert (first + second)[1..] == first[1..] + second;
      RunAppend(capacity, Next(capacity, s, first[0]), first[1..], second);
    }
  }

  // ---- Safety of every run ----

  /** Adds the running job if this step is a write on its row that took no effect at its end, or took
      effect at its start without the caller knowing. */
  function FailedBy(s: State, step: Step): set<string> {
    match step
    case Start(startable, w) =>
      if s.consumer.Picked? && startable && w == Unacknowledged && s.consumer.job.id in s.table
      then {s.consumer.job.id} else {}
    case Finish(w) => if s.consumer.Reported? && w == Rejected then {s.consumer.job.id} else {}
    case _ => {}
  }

  /** The jobs whose start or terminal write failed so in the process life that the run ends in. */
  ghost function FailedInLife(capacity: nat, s: State, steps: seq<Step>, since: set<string>): set<string>
    decreases |steps|
  {
    if steps == [] then since
    else
      FailedInLife(capacity, Next(capacity, s, steps[0]), steps[1..],
                   if steps[0].Boot? && s.phase.Down? then {} else since + FailedBy(s, steps[0]))
  }

  ghost predicate LifeOk(s: State, since: set<string>) {
    && (s.phase.Booting? || s.phase.Listing? || s.phase.Reconciling? ==> since == {})
    && (s.phase.Up? ==> s.stuck == since)
  }

  lemma StepKeepsLife(capacity: nat, s: State, step: Step, since: set<string>)
    requires Inv(capacity, s) && LifeOk(s, since)
    ensures LifeOk(Next(capacity, s, step), if step.Boot? && s.phase.Down? then {} else since + FailedBy(s, step))
  {
  }

  lemma {:induction false} StuckIsFailedInLife(capacity: nat, s: State, steps: seq<Step>, since: set<string>)
    requires Inv(capacity, s) && LifeOk(s, since)
    ensures LifeOk(Run(capacity, s, steps), FailedInLife(capacity, s, steps, since))
    decreases |steps|
  {
    if steps == [] {
    } else {
      var step := steps[0];
      StepKeepsLife(capacity, s, step, since);
      NextKeepsInv(capacity, s, step);
      StuckIsFailedInLife(capacity, Next(capacity, s, step), steps[1..],
                          if step.Boot? && s.phase.Down? then {} else since + FailedBy(s, step));
    }
  }

  /** In every reachable state: queued IDs are distinct and each has a queued row, the
      consumer's job is not in the queue, and the in_progress rows are exactly the running
      job's and the stuck ones. In a live process these are the jobs whose start or terminal write
      failed in this process life; between the sweep and going live there are none. */
  lemma RunsAreSafe(capacity: nat, steps: seq<Step>)
    ensures
      var s := Run(capacity, INIT, steps);
      var failed := FailedInLife(capacity, INIT, steps, {});
      && |s.queue| <= capacity
      && (forall i, j :: 0 <= i < j < |s.queue| ==> s.queue[i].id != s.queue[j].id)
      && (forall i :: 0 <= i < |s.queue| ==>
          s.queue[i].id in s.table && s.table[s.queue[i].id] == Row(s.queue[i], Queued))
      && (!s.consumer.Idle? ==> s.consumer.job.id !in Ids(s.queue))
      && WithStatus(s.table, InProgress) == s.stuck + Busy(s.consumer) && s.stuck !! Busy(s.consumer)
      && (s.phase.Up? ==> WithStatus(s.table, InProgress) == failed + Busy(s.consumer) && failed !! Busy(s.consumer))
      && (s.phase.Listing? || s.phase.Reconciling? ==> WithStatus(s.table, InProgress) == {})
  {
    assert Inv(capacity, INIT);
    RunKeepsInv(capacity, INIT, steps);
    StuckIsFailedInLife(capacity, INIT, steps, {});
  }

  /** One step moves a row along one edge of the life cycle or not at all; a row appears queued. */
  lemma StepFollowsEdge(capacity: nat, s: State, step: Step, id: string)
    requires Inv(capacity, s)
    ensures
      var t := Next(capacity, s, step);
      && (id in s.table ==>
            && id in t.table
            && t.table[id].job == s.table[id].job
            && (|| t.table[id].status == s.table[id].status
                || (s.table[id].status == Queued && t.table[id].status == InProgress)
                || (s.table[id].status == InProgress
                    && (t.table[id].status == Completed || t.table[id].status == Failed))))
      && (id !in s.table && id in t.table ==> t.table[id].status == Queued)
  {
  }

  /** The status changes of one row over a run, each change once, appended to `seen`. */
  ghost function History(capacity: nat, s: State, steps: seq<Step>, id: string, seen: seq<Status>): seq<Status>
    decreases |steps|
  {
    var seen' := if id in s.table && (seen == [] || seen[|seen| - 1] != s.table[id].status)
                 then seen + [s.table[id].status] else seen;
    if steps == [] then seen' else History(capacity, Next(capacity, s, steps[0]), steps[1..], id, seen')
  }

  ghost predicate LifeCycle(h: seq<Status>) {
    h <= [Queued, InProgress, Completed] || h <= [Queued, InProgress, Failed]
  }

  lemma {:induction false} HistoryIsLifeCycle(capacity: nat, s: State, steps: seq<Step>, id: string, seen: seq<Status>)
    requires Inv(capacity, s) && LifeCycle(seen)
    requires id in s.table ==>
      LifeCycle(seen + [s.table[id].status]) || (seen != [] && seen[|seen| - 1] == s.table[id].status)
    requires id !in s.table ==> seen == []
    ensures LifeCycle(History(capacity, s, steps, id, seen))
    decreases |steps|
  {
    if steps == [] {
    } else {
      var t := Next(capacity, s, steps[0]);
      StepFollowsEdge(capacity, s, steps[0], id);
      NextKeepsInv(capacity, s, steps[0]);
      var seen' := if id in s.table && (seen == [] || seen[|seen| - 1] != s.table[id].status)
                   then seen + [s.table[id].status] else seen;
      HistoryIsLifeCycle(capacity, t, steps[1..], id, seen');
    }
  }

  /** Over any run, with any number of crashes, the statuses of a job are a prefix of
      queued, in_progress, completed or of queued, in_progress, failed. */
  lemma StatusOnlyMovesForward(capacity: nat, steps: seq<Step>, id: string)
    ensures LifeCycle(History(capacity, INIT, steps, id, []))
  {
    assert Inv(capacity, INIT);
    HistoryIsLifeCycle(capacity, INIT, steps, id, []);
  }

  /** A terminal row never changes again and no row is ever removed. */
  lemma {:induction false} TerminalRowsAreFrozen(capacity: nat, s: State, steps: seq<Step>, id: string)
    requires Inv(capacity, s) && id in s.table
    ensures
      var t := Run(capacity, s, steps);
      && id in t.table
      && t.table[id].job == s.table[id].job
      && (s.table[id].status == Completed || s.table[id].status == Failed ==> t.table[id] == s.table[id])
      && (s.table[id].status == InProgress ==> t.table[id].status != Queued)
    decreases |steps|
  {
    if steps == [] {
    } else {
      StepFollowsEdge(capacity, s, steps[0], id);
      NextKeepsInv(capacity, s, steps[0]);
      TerminalRowsAreFrozen(capacity, Next(capacity, s, steps[0]), steps[1..], id);
    }
  }

  lemma {:induction false} DistinctOccursOnce(names: seq<string>, id: string)
    requires forall i, j :: 0 <= i < j < |names| ==> names[i] != names[j]
    ensures multiset(names)[id] <= 1
  {
    if names == [] {
    } else {
      var last := |names| - 1;
      assert names == names[..last] + [names[last]];
      DistinctOccursOnce(names[..last], id);
      assert id in names[..last] ==> names[last] != id;
      assert id in multiset(names[..last]) <==> id in names[..last];
    }
  }

  /** However often the process crashes, a job is started at most once; a started job has left
      the queued state for good, and a completed row implies a published BackupCompleted. */
  lemma StartedAtMostOnce(capacity: nat, steps: seq<Step>, id: string)
    ensures
      var s := Run(capacity, INIT, steps);
      && multiset(s.started)[id] <= 1
      && (id in s.started ==> id in s.table && s.table[id].status != Queued)
      && (id in s.table && s.table[id].status == Completed ==> (id, true) in s.finished && id in s.started)
  {
    assert Inv(capacity, INIT);
    RunKeepsInv(capacity, INIT, steps);
    DistinctOccursOnce(Run(capacity, INIT, steps).started, id);
  }

  /** A job whose row exists at some moment of a run still has its row at any later moment,
      and is then in exactly one place: finished, in progress under the consumer, stuck, known to
      memory as queued, or queued and shed until the next reconciliation. */
  lemma NoAcceptedJobIsLost(capacity: nat, first: seq<Step>, second: seq<Step>, id: string)
    requires id in Run(capacity, INIT, first).table
    ensures
      var s := Run(capacity, INIT, first + second);
      && id in s.table
      && s.table[id].job == Run(capacity, INIT, first).table[id].job
      && (id in s.shed + InMemory(s) <==> s.table[id].status == Queued)
      && (id in s.stuck + Busy(s.consumer) <==> s.table[id].status == InProgress)
      && s.shed !! InMemory(s)
  {
    assert Inv(capacity, INIT);
    RunKeepsInv(capacity, INIT, first);
    RunAppend(capacity, INIT, first, second);
    TerminalRowsAreFrozen(capacity, Run(capacity, INIT, first), second, id);
    RunKeepsInv(capacity, INIT, first + second);
    var s := Run(capacity, INIT, first + second);
    assert id in WithStatus(s.table, Queued) <==> s.table[id].status == Queued;
    assert id in WithStatus(s.table, InProgress) <==> s.table[id].status == InProgress;
  }

  // ---- The terminal event and the terminal row ----

  ghost predicate Abandoned(s: State, id: string) {
    id in s.table && (s.table[id].status == Failed || (s.table[id].status == InProgress && id in s.stuck))
  }

  lemma WritesKeepAbandoned(capacity: nat, s: State, step: Step, id: string)
    requires Inv(capacity, s) && Abandoned(s, id)
    requires step.FailOrphans? || step.Create? || step.Start? || step.Finish?
    ensures Abandoned(Next(capacity, s, step), id)
  {
    assert s.table[id].status == InProgress ==> id !in Busy(s.consumer);
  }

  lemma StepKeepsAbandoned(capacity: nat, s: State, step: Step, id: string)
    requires Inv(capacity, s) && Abandoned(s, id)
    ensures Abandoned(Next(capacity, s, step), id)
  {
    if step.FailOrphans? || step.Create? || step.Start? || step.Finish? {
      WritesKeepAbandoned(capacity, s, step, id);
    } else {
      var t := Next(capacity, s, step);
      assert t.table == s.table && s.stuck <= t.stuck;
    }
  }

  lemma {:induction false} AbandonedOnlyFails(capacity: nat, s: State, steps: seq<Step>, id: string)
    requires Inv(capacity, s) && Abandoned(s, id)
    ensures Abandoned(Run(capacity, s, steps), id)
    decreases |steps|
  {
    if steps == [] {
    } else {
      NextKeepsInv(capacity, s, steps[0]);
      StepKeepsAbandoned(capacity, s, steps[0], id);
      AbandonedOnlyFails(capacity, Next(capacity, s, steps[0]), steps[1..], id);
    }
  }

  /** The terminal event is published before the terminal status is written. Whatever happens
      later, once the row is terminal it agrees with the event exactly when the write took
      effect or the event was BackupFailed. */
  lemma TerminalEventAgreesIff(capacity: nat, s: State, w: Write, later: seq<Step>)
    requires Inv(capacity, s) && s.consumer.Reported?
    ensures
      var id := s.consumer.job.id;
      var t := Run(capacity, s, [Finish(w)] + later);
      && id in t.table
      && (t.table[id].status == Completed || t.table[id].status == Failed ==>
            (t.table[id].status == Terminal(s.consumer.ok) <==> w != Rejected || !s.consumer.ok))
  {
    var id := s.consumer.job.id;
    var t := Next(capacity, s, Finish(w));
    NextKeepsInv(capacity, s, Finish(w));
    RunAppend(capacity, s, [Finish(w)], later);
    assert Run(capacity, s, [Finish(w)]) == t by {
      assert [Finish(w)][1..] == [];
    }
    TerminalRowsAreFrozen(capacity, t, later, id);
    if w == Rejected {
      AbandonedOnlyFails(capacity, t, later, id);
    }
  }
}
