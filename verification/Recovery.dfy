/** What a startup restores and what a quiet life after it gets done. */
module Recovery {
  import opened Core
  import opened Jobs
  import opened Protocol

  // ---- Startup ----

  lemma TimesUnfold(capacity: nat, s: State, step: Step, n: nat)
    requires n > 0
    ensures Run(capacity, s, Times(step, n)) == Run(capacity, Next(capacity, s, step), Times(step, n - 1))
  {
    RunUnfolds(capacity, s, step, Times(step, n - 1));
  }

  /** The startup order of the controller command, for a listing of n queued jobs. */
  function StartupSteps(listing: seq<Job>): seq<Step> {
    [Boot, FailOrphans(Applied), ListQueued(Some(listing))] + (Times(Reenqueue, |listing|) + [GoLive])
  }

  function Min(a: nat, b: nat): nat {
    if a < b then a else b
  }

  /** The queue and the shed jobs after enqueuing `rest` one by one, each only if there is room. */
  function Refill(capacity: nat, queue: seq<Job>, shed: set<string>, rest: seq<Job>): (seq<Job>, set<string>)
    decreases |rest|
  {
    if rest == [] then (queue, shed)
    else if |queue| < capacity then Refill(capacity, queue + [rest[0]], shed, rest[1..])
    else Refill(capacity, queue, shed + {rest[0].id}, rest[1..])
  }

  lemma {:induction false} RefillIs(capacity: nat, queue: seq<Job>, shed: set<string>, rest: seq<Job>)
    requires |queue| <= capacity
    ensures
      var k := Min(capacity - |queue|, |rest|);
      Refill(capacity, queue, shed, rest) == (queue + rest[..k], shed + Ids(rest[k..]))
    decreases |rest|
  {
    if rest == [] {
      assert queue + [] == queue && shed + Ids([]) == shed;
    } else if |queue| < capacity {
      var k := Min(capacity - |queue|, |rest|);
      RefillIs(capacity, queue + [rest[0]], shed, rest[1..]);
      assert rest[..k] == [rest[0]] + rest[1..][..k - 1] && rest[1..][k - 1..] == rest[k..];
      assert queue + [rest[0]] + rest[1..][..k - 1] == queue + rest[..k];
    } else {
      RefillIs(capacity, queue, shed + {rest[0].id}, rest[1..]);
      IdsSplit(rest, rest[0]);
      assert rest[1..][0..] == rest[1..] && rest[0..] == rest;
      assert shed + {rest[0].id} + Ids(rest[1..]) == shed + Ids(rest);
    }
  }

  lemma {:induction false} ReenqueueAll(capacity: nat, s: State)
    requires s.phase.Reconciling?
    ensures
      var (queue, shed) := Refill(capacity, s.queue, s.shed, s.phase.rest);
      Run(capacity, s, Times(Reenqueue, |s.phase.rest|)) == s.(phase := Reconciling([]), queue := queue, shed := shed)
    decreases |s.phase.rest|
  {
    var n := |s.phase.rest|;
    if n == 0 {
    } else {
      TimesUnfold(capacity, s, Reenqueue, n);
      ReenqueueAll(capacity, Next(capacity, s, Reenqueue));
    }
  }

  lemma RunThree(capacity: nat, s: State, a: Step, b: Step, c: Step, tail: seq<Step>)
    ensures Run(capacity, s, [a, b, c] + tail)
         == Run(capacity, Next(capacity, Next(capacity, Next(capacity, s, a), b), c), tail)
  {
    assert [a, b, c] + tail == [a] + ([b] + ([c] + tail));
    RunUnfolds(capacity, s, a, [b] + ([c] + tail));
    RunUnfolds(capacity, Next(capacity, s, a), b, [c] + tail);
    RunUnfolds(capacity, Next(capacity, Next(capacity, s, a), b), c, tail);
  }

  lemma RunThenOne(capacity: nat, s: State, steps: seq<Step>, last: Step)
    ensures Run(capacity, s, steps + [last]) == Next(capacity, Run(capacity, s, steps), last)
  {
    RunAppend(capacity, s, steps, [last]);
    RunUnfolds(capacity, Run(capacity, s, steps), last, []);
    assert [last] + [] == [last];
  }

  /** A startup, step by step. */
  lemma StartupUnfolds(capacity: nat, s: State, listing: seq<Job>)
    ensures
      var listed := Next(capacity, Next(capacity, Next(capacity, s, Boot), FailOrphans(Applied)),
          ListQueued(Some(listing)));
      Run(capacity, s, StartupSteps(listing))
      == Next(capacity, Run(capacity, listed, Times(Reenqueue, |listing|)), GoLive)
  {
    var tail := Times(Reenqueue, |listing|) + [GoLive];
    RunThree(capacity, s, Boot, FailOrphans(Applied), ListQueued(Some(listing)), tail);
    var listed := Next(capacity, Next(capacity, Next(capacity, s, Boot), FailOrphans(Applied)),
        ListQueued(Some(listing)));
    RunThenOne(capacity, listed, Times(Reenqueue, |listing|), GoLive);
  }

  /** Whatever the crash left behind, a startup that runs through ends live, with no row in
      progress, the queue exactly the first min(capacity, n) queued rows in queued_at order,
      and exactly the other queued rows waiting for the next startup. */
  lemma StartupRehydratesQueue(capacity: nat, s: State, listing: seq<Job>)
    requires Inv(capacity, s) && s.phase.Down?
    requires IsListing(FailInProgress(s.table), Queued, listing)
    ensures
      var t := Run(capacity, s, StartupSteps(listing));
      var k := Min(capacity, |listing|);
      && t.phase.Up? && t.consumer.Idle? && t.pending == {}
      && t.table == FailInProgress(s.table) && WithStatus(t.table, InProgress) == {}
      && t.queue == listing[..k]
      && t.shed == Ids(listing[k..]) && t.stuck == {}
      && Inv(capacity, t)
  {
    var listed := Next(capacity, Next(capacity, Next(capacity, s, Boot), FailOrphans(Applied)),
        ListQueued(Some(listing)));
    Listed(capacity, s, listing);
    StartupUnfolds(capacity, s, listing);
    ReenqueueAll(capacity, listed);
    RefillIs(capacity, [], {}, listing);
    assert [] + listing[..Min(capacity, |listing|)] == listing[..Min(capacity, |listing|)];
    RunKeepsInv(capacity, s, StartupSteps(listing));
  }

  /** The queue is refilled oldest first, and no job that has to wait for the next startup was queued before one
      that is refilled. */
  lemma OldestAreRehydrated(capacity: nat, s: State, listing: seq<Job>)
    requires Inv(capacity, s) && s.phase.Down?
    requires IsListing(FailInProgress(s.table), Queued, listing)
    ensures
      var t := Run(capacity, s, StartupSteps(listing));
      && (forall i, j :: 0 <= i < j < |t.queue| ==> t.queue[i].queuedAt <= t.queue[j].queuedAt)
      && (forall i, id :: 0 <= i < |t.queue| && id in t.shed ==>
            id in t.table && t.queue[i].queuedAt <= t.table[id].job.queuedAt)
      && (forall id :: id in t.table && t.table[id].status == Queued ==> t.table[id].job in t.queue || id in t.shed)
  {
    StartupRehydratesQueue(capacity, s, listing);
    OldestFirst(FailInProgress(s.table), listing, Min(capacity, |listing|));
  }

  lemma OldestFirst(t: Table, listing: seq<Job>, k: nat)
    requires IsListing(t, Queued, listing) && k <= |listing| && forall id :: id in t ==> t[id].job.id == id
    ensures
      var queue, shed := listing[..k], Ids(listing[k..]);
      && (forall i, j :: 0 <= i < j < |queue| ==> queue[i].queuedAt <= queue[j].queuedAt)
      && (forall i, id :: 0 <= i < |queue| && id in shed ==> id in t && queue[i].queuedAt <= t[id].job.queuedAt)
      && (forall id :: id in t && t[id].status == Queued ==> t[id].job in queue || id in shed)
  {
    forall id | id in t && t[id].status == Queued
      ensures t[id].job in listing[..k] || id in Ids(listing[k..])
    {
      var i :| 0 <= i < |listing| && listing[i] == t[id].job;
      assert i < k ==> listing[..k][i] == listing[i];
      assert i >= k ==> listing[k..][i - k] == listing[i];
    }
    forall i, id | 0 <= i < k && id in Ids(listing[k..])
      ensures id in t && listing[i].queuedAt <= t[id].job.queuedAt
    {
      var j :| 0 <= j < |listing[k..]| && listing[k..][j].id == id;
      assert listing[k + j].id == id;
    }
  }

  lemma Listed(capacity: nat, s: State, listing: seq<Job>)
    requires Inv(capacity, s) && s.phase.Down? && IsListing(FailInProgress(s.table), Queued, listing)
    ensures
      var t := Next(capacity, Next(capacity, Next(capacity, s, Boot), FailOrphans(Applied)), ListQueued(Some(listing)));
      && t.phase == Reconciling(listing) && t.consumer.Idle? && t.pending == {} && t.queue == []
      && t.shed == {} && t.stuck == {}
      && t.table == FailInProgress(s.table) && WithStatus(t.table, InProgress) == {}
  {
  }

  // ---- A quiet life ----

  function ConsumeSteps(startable: bool, start: Write, ok: bool, finish: Write): seq<Step> {
    [Dequeue, Start(startable, start), PublishStarted, PublishFinished(ok), Finish(finish)]
  }

  /** The consumer working through its queue with no arrival, no crash and no failed write. */
  function QuietSteps(queue: seq<Job>, startable: Job -> bool, ok: Job -> bool): seq<Step> {
    if queue == [] then []
    else ConsumeSteps(startable(queue[0]), Applied, ok(queue[0]), Applied) + QuietSteps(queue[1..], startable, ok)
  }

  /** The consumer taking one job all the way, with any outcome of any write. */
  lemma ConsumeOne(capacity: nat, s: State, startable: bool, start: Write, ok: bool, finish: Write)
    requires Inv(capacity, s) && s.phase.Up? && s.consumer.Idle? && s.queue != []
    ensures
      var job := s.queue[0];
      var t := Run(capacity, s, ConsumeSteps(startable, start, ok, finish));
      var run := startable && start == Applied;
      && t.phase.Up? && t.consumer.Idle? && t.queue == s.queue[1..] && t.pending == s.pending
      && job.id in s.table
      && t.table == RowsAfter(s.table, job.id, startable, start, ok, finish)
      && t.started == s.started + (if run then [job.id] else [])
      && t.finished == s.finished + (if run then [(job.id, ok)] else [])
  {
    var steps := ConsumeSteps(startable, start, ok, finish);
    var s1 := Next(capacity, s, steps[0]);
    var s2 := Next(capacity, s1, steps[1]);
    var s3 := Next(capacity, s2, steps[2]);
    var s4 := Next(capacity, s3, steps[3]);
    var s5 := Next(capacity, s4, steps[4]);
    forall i | 0 <= i < 5
      ensures steps[i..] == [steps[i]] + steps[i + 1..]
    {
    }
    RunUnfolds(capacity, s, steps[0], steps[1..]);
    RunUnfolds(capacity, s1, steps[1], steps[2..]);
    RunUnfolds(capacity, s2, steps[2], steps[3..]);
    RunUnfolds(capacity, s3, steps[3], steps[4..]);
    RunUnfolds(capacity, s4, steps[4], steps[5..]);
    assert steps[0..] == steps && Run(capacity, s, steps) == s5;
  }

  lemma QuietOne(capacity: nat, s: State, startable: bool, ok: bool)
    requires Inv(capacity, s) && s.phase.Up? && s.consumer.Idle? && s.queue != []
    ensures
      var job := s.queue[0];
      var t := Run(capacity, s, ConsumeSteps(startable, Applied, ok, Applied));
      && t.phase.Up? && t.consumer.Idle? && t.queue == s.queue[1..] && Waiting(s.table, job)
      && t.table == (if startable then SetStatus(s.table, job.id, Terminal(ok)) else s.table)
  {
    ConsumeOne(capacity, s, startable, Applied, ok, Applied);
  }

  function StartableIds(jobs: seq<Job>, startable: Job -> bool): set<string> {
    set i | 0 <= i < |jobs| && startable(jobs[i]) :: jobs[i].id
  }

  lemma StartableIdsEmptyIff(queue: seq<Job>, startable: Job -> bool)
    ensures (exists j :: j in queue && startable(j)) <==> StartableIds(queue, startable) != {}
  {
    if j :| j in queue && startable(j) {
      var i :| 0 <= i < |queue| && queue[i] == j;
      assert queue[i].id in StartableIds(queue, startable);
    }
    if StartableIds(queue, startable) != {} {
      var id :| id in StartableIds(queue, startable);
      var i :| 0 <= i < |queue| && startable(queue[i]) && queue[i].id == id;
      assert queue[i] in queue;
    }
  }

  lemma StartableIdsSplit(queue: seq<Job>, startable: Job -> bool)
    requires queue != []
    ensures StartableIds(queue, startable)
         == (if startable(queue[0]) then {queue[0].id} else {}) + StartableIds(queue[1..], startable)
  {
    assert queue == [queue[0]] + queue[1..];
    assert forall i :: 0 < i < |queue| ==> queue[i] == queue[1..][i - 1];
  }

  /** The queued rows after working through the queue, and the rows of the startable jobs. */
  ghost predicate Drained(t: State, before: Table, queue: seq<Job>, startable: Job -> bool, ok: Job -> bool) {
    && t.queue == [] && t.consumer.Idle? && t.phase.Up?
    && WithStatus(t.table, Queued) == WithStatus(before, Queued) - StartableIds(queue, startable)
    && WithStatus(t.table, InProgress) == WithStatus(before, InProgress)
    && (forall i :: 0 <= i < |queue| && startable(queue[i]) ==>
          queue[i].id in t.table && t.table[queue[i].id].status == Terminal(ok(queue[i])))
  }

  lemma DrainedHead(t: State, before: Table, mid: Table, queue: seq<Job>, startable: Job -> bool, ok: Job -> bool)
    requires queue != [] && Waiting(before, queue[0])
    requires mid == if startable(queue[0]) then SetStatus(before, queue[0].id, Terminal(ok(queue[0]))) else before
    requires Drained(t, mid, queue[1..], startable, ok)
    requires startable(queue[0]) ==> queue[0].id in t.table && t.table[queue[0].id].status == Terminal(ok(queue[0]))
    ensures Drained(t, before, queue, startable, ok)
  {
    var id := queue[0].id;
    assert WithStatus(mid, InProgress) == WithStatus(before, InProgress);
    assert WithStatus(mid, Queued) == WithStatus(before, Queued) - (if startable(queue[0]) then {id} else {});
    StartableIdsSplit(queue, startable);
    assert forall i :: 0 < i < |queue| ==> queue[i] == queue[1..][i - 1];
  }

  lemma {:induction false} QuietStepsDrain(capacity: nat, s: State, startable: Job -> bool, ok: Job -> bool)
    requires Inv(capacity, s) && s.phase.Up? && s.consumer.Idle?
    ensures Drained(Run(capacity, s, QuietSteps(s.queue, startable, ok)), s.table, s.queue, startable, ok)
    decreases |s.queue|
  {
    if s.queue == [] {
      assert StartableIds(s.queue, startable) == {};
    } else {
      var job := s.queue[0];
      var head := ConsumeSteps(startable(job), Applied, ok(job), Applied);
      var rest := QuietSteps(s.queue[1..], startable, ok);
      var mid := Run(capacity, s, head);
      QuietOne(capacity, s, startable(job), ok(job));
      RunKeepsInv(capacity, s, head);
      RunAppend(capacity, s, head, rest);
      TerminalRowsAreFrozen(capacity, mid, rest, job.id);
      QuietStepsDrain(capacity, mid, startable, ok);
      DrainedHead(Run(capacity, mid, rest), s.table, mid.table, s.queue, startable, ok);
    }
  }

  /** A quiet life empties the queue; the queued rows it takes away are exactly those of the
      startable jobs in the queue, and each of these ends with its own outcome. */
  lemma QuietLifeDrains(capacity: nat, s: State, startable: Job -> bool, ok: Job -> bool)
    requires Inv(capacity, s) && s.phase.Up? && s.consumer.Idle?
    ensures
      var t := Run(capacity, s, QuietSteps(s.queue, startable, ok));
      && Drained(t, s.table, s.queue, startable, ok)
      && StartableIds(s.queue, startable) <= WithStatus(s.table, Queued)
      && |WithStatus(t.table, Queued)| == |WithStatus(s.table, Queued)| - |StartableIds(s.queue, startable)|
  {
    QuietStepsDrain(capacity, s, startable, ok);
    assert StartableIds(s.queue, startable) <= WithStatus(s.table, Queued);
  }

  lemma StartupThenQuietLifeDrains(capacity: nat, s: State, listing: seq<Job>, startable: Job -> bool, ok: Job -> bool)
    requires Inv(capacity, s) && s.phase.Down?
    requires IsListing(FailInProgress(s.table), Queued, listing)
    ensures
      var prefix := listing[..Min(capacity, |listing|)];
      var t := Run(capacity, s, StartupSteps(listing) + QuietSteps(prefix, startable, ok));
      && Drained(t, FailInProgress(s.table), prefix, startable, ok)
      && StartableIds(prefix, startable) <= WithStatus(FailInProgress(s.table), Queued)
      && WithStatus(FailInProgress(s.table), InProgress) == {}
  {
    var prefix := listing[..Min(capacity, |listing|)];
    StartupRehydratesQueue(capacity, s, listing);
    RunAppend(capacity, s, StartupSteps(listing), QuietSteps(prefix, startable, ok));
    QuietLifeDrains(capacity, Run(capacity, s, StartupSteps(listing)), startable, ok);
  }

  lemma QueuedRowsAfter(t: State, before: Table, queue: seq<Job>, startable: Job -> bool, ok: Job -> bool)
    requires Drained(t, FailInProgress(before), queue, startable, ok)
    requires StartableIds(queue, startable) <= WithStatus(FailInProgress(before), Queued)
    ensures WithStatus(t.table, Queued) == WithStatus(before, Queued) - StartableIds(queue, startable)
    ensures StartableIds(queue, startable) <= WithStatus(before, Queued)
  {
    SweepKeepsQueued(before);
  }

  lemma SweepKeepsQueued(t: Table)
    ensures WithStatus(FailInProgress(t), Queued) == WithStatus(t, Queued)
  {
  }

  lemma Fewer(all: set<string>, started: set<string>)
    requires started <= all
    ensures |all - started| == |all| - |started|
    ensures all - started == all <==> started == {}
  {
    assert started != {} ==> exists id :: id in started;
  }

  /** A startup followed by a quiet life: the number of queued rows falls by exactly the
      startable jobs among the first min(capacity, n); with none startable there, nothing moves. */
  lemma StartupThenQuietLife(capacity: nat, s: State, listing: seq<Job>, startable: Job -> bool, ok: Job -> bool)
    requires Inv(capacity, s) && s.phase.Down?
    requires IsListing(FailInProgress(s.table), Queued, listing)
    ensures
      var prefix := listing[..Min(capacity, |listing|)];
      var t := Run(capacity, s, StartupSteps(listing) + QuietSteps(prefix, startable, ok));
      var queued := WithStatus(t.table, Queued);
      && queued == WithStatus(s.table, Queued) - StartableIds(prefix, startable)
      && |queued| == |WithStatus(s.table, Queued)| - |StartableIds(prefix, startable)|
      && ((exists j :: j in prefix && startable(j)) <==> queued != WithStatus(s.table, Queued))
  {
    var prefix := listing[..Min(capacity, |listing|)];
    StartupThenQuietLifeDrains(capacity, s, listing, startable, ok);
    var t := Run(capacity, s, StartupSteps(listing) + QuietSteps(prefix, startable, ok));
    QueuedRowsAfter(t, s.table, prefix, startable, ok);
    Fewer(WithStatus(s.table, Queued), StartableIds(prefix, startable));
    StartableIdsEmptyIff(prefix, startable);
  }
}
