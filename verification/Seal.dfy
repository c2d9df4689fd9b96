/** The stored events of a job, the page the job view reads, and the seal computed from it. */
module Seal {
  import opened Core
  import opened Events
  import opened Pipeline
  import opened Traces

  datatype StoredEvent = StoredEvent(event: Event, at: int)

  datatype EventFilter = EventFilter(jobId: string, host: string, limit: int)

  // ---- ListEventsPage ----

  predicate Matches(f: EventFilter, e: Event) {
    (f.jobId != "" ==> e.jobId == f.jobId) && (f.host != "" ==> e.host == f.host)
  }

  function Filtered(f: EventFilter, rows: seq<StoredEvent>): seq<StoredEvent> {
    if rows == [] then []
    else (if Matches(f, rows[0].event) then [rows[0]] else []) + Filtered(f, rows[1..])
  }

  /** Exactly the events of that job and that host, each as often as it is stored; an empty name filters nothing. */
  lemma {:induction false} FilteredAre(f: EventFilter, rows: seq<StoredEvent>, e: StoredEvent)
    ensures multiset(Filtered(f, rows))[e]
         == if (f.jobId == "" || e.event.jobId == f.jobId) && (f.host == "" || e.event.host == f.host)
            then multiset(rows)[e] else 0
  {
    if rows == [] {
    } else {
      FilteredAre(f, rows[1..], e);
      assert rows == [rows[0]] + rows[1..];
    }
  }

  ghost predicate NewestFirst(page: seq<StoredEvent>) {
    forall i, j :: 0 <= i < j < |page| ==> page[i].at >= page[j].at
  }

  /** What the select may return: some newest-first order of the matching rows, cut at the limit. */
  ghost predicate IsPage(f: EventFilter, rows: seq<StoredEvent>, page: seq<StoredEvent>) {
    exists full ::
      && multiset(full) == multiset(Filtered(f, rows))
      && NewestFirst(full)
      && page == if 0 < f.limit < |full| then full[..f.limit] else full
  }

  predicate Increasing(events: seq<StoredEvent>) {
    forall i, j :: 0 <= i < j < |events| ==> events[i].at < events[j].at
  }

  function Reverse<T>(s: seq<T>): (r: seq<T>)
    ensures |r| == |s|
    ensures forall i :: 0 <= i < |s| ==> r[i] == s[|s| - 1 - i]
  {
    if s == [] then [] else [s[|s| - 1]] + Reverse(s[..|s| - 1])
  }

  lemma NewestIsLast(full: seq<StoredEvent>, events: seq<StoredEvent>)
    requires multiset(full) == multiset(events) && NewestFirst(full) && Increasing(events) && events != []
    ensures full != [] && full[0] == events[|events| - 1]
  {
    var last := events[|events| - 1];
    assert last in multiset(full);
    assert full[0] in multiset(events);
    var i :| 0 <= i < |events| && events[i] == full[0];
    var j :| 0 <= j < |full| && full[j] == last;
  }

  lemma SameRest(full: seq<StoredEvent>, older: seq<StoredEvent>)
    requires full != [] && multiset(full) == multiset(older + [full[0]])
    ensures multiset(full[1..]) == multiset(older)
  {
    assert full == [full[0]] + full[1..];
    assert multiset(full[1..]) == multiset(full) - multiset{full[0]};
    assert multiset(older) == multiset(older + [full[0]]) - multiset{full[0]};
  }

  /** Distinct timestamps leave the select no choice. */
  lemma {:induction false} NewestFirstIsReverse(full: seq<StoredEvent>, events: seq<StoredEvent>)
    requires multiset(full) == multiset(events) && NewestFirst(full) && Increasing(events)
    ensures full == Reverse(events)
    decreases |events|
  {
    assert |full| == |multiset(full)| == |multiset(events)| == |events|;
    if events == [] {
    } else {
      NewestIsLast(full, events);
      var older := events[..|events| - 1];
      assert events == older + [full[0]];
      SameRest(full, older);
      NewestFirstIsReverse(full[1..], older);
      assert full == [full[0]] + full[1..];
    }
  }

  // ---- The seal ----

  datatype Tier = TierNone | TierStructural | TierStorage | TierRestored | TierFailed

  function SealTier(kinds: seq<Kind>): Tier {
    if BackupFailed in kinds then TierFailed
    else if RestoreVerificationCompleted in kinds then TierRestored
    else if RepositoryVerificationCompleted in kinds then TierStorage
    else if ArtifactCreated in kinds then TierStructural
    else TierNone
  }

  /** Each tier is the strongest evidence among the events, and a failure outweighs all of it. */
  lemma TierIs(kinds: seq<Kind>)
    ensures SealTier(kinds) == TierFailed <==> BackupFailed in kinds
    ensures BackupFailed !in kinds ==>
      && (SealTier(kinds) == TierRestored <==> RestoreVerificationCompleted in kinds)
      && (SealTier(kinds) == TierStorage
          <==> RepositoryVerificationCompleted in kinds && RestoreVerificationCompleted !in kinds)
      && (SealTier(kinds) == TierStructural
          <==> ArtifactCreated in kinds && RepositoryVerificationCompleted !in kinds
               && RestoreVerificationCompleted !in kinds)
  {
  }

  /** While its one resource is on the way, a job's seal rises with the chain: nothing, the artifact, the
      repository, the restore test. */
  lemma SealRises(verify: bool, n: nat)
    requires n <= |Chain(verify)|
    ensures SealTier([BackupStarted, DiscoveryStarted, DiscoveryCompleted] + Chain(verify)[..n])
         == if n == 0 then TierNone else if n < 5 then TierStructural else if n < 7 then TierStorage else TierRestored
  {
    var chain := Chain(verify);
    var part := chain[..n];
    assert forall k :: k in part <==> exists i :: 0 <= i < n && chain[i] == k;
    assert chain[0] == ArtifactCreated && chain[4] == RepositoryVerificationCompleted;
    assert verify ==> chain[6] == RestoreVerificationCompleted;
    assert forall i :: 0 <= i < |chain| ==>
        && (chain[i] == RepositoryVerificationCompleted ==> i == 4)
        && (chain[i] == RestoreVerificationCompleted ==> i == 6)
        && chain[i] != BackupFailed;
  }

  function LastOf<T>(s: seq<T>, n: nat): seq<T> {
    if n < |s| then s[|s| - n..] else s
  }

  lemma {:induction false} ChainsOnlyHold(lens: seq<nat>, verify: bool, k: Kind)
    requires AllStops(lens, verify) && (lens == [] || k !in Chain(verify))
    ensures k !in Chains(lens, verify)
    decreases |lens|
  {
    if lens == [] {
    } else {
      ChainsOnlyHold(lens[1..], verify, k);
    }
  }

  lemma {:induction false} ChainsEndFull(lens: seq<nat>, verify: bool)
    requires AllStops(lens, verify) && AllFull(lens, verify) && lens != []
    ensures
      var c := Chains(lens, verify);
      c != [] && c[|c| - 1] == if verify then RestoreVerificationCompleted else RepositoryVerificationCompleted
    decreases |lens|
  {
    assert Chain(verify)[..lens[0]] == Chain(verify);
    if |lens| == 1 {
      assert Chains(lens[1..], verify) == [];
    } else {
      ChainsEndFull(lens[1..], verify);
    }
  }

  /** What the seal of a whole run must be, from the run's outcome alone. */
  function ExpectedTier(completed: bool, verify: bool, resources: nat): Tier {
    if !completed then TierFailed
    else if resources == 0 then TierNone
    else if verify then TierRestored
    else TierStorage
  }

  function GoodTrace(head: seq<Kind>, lens: seq<nat>, verify: bool): seq<Kind>
    requires AllStops(lens, verify)
  {
    head + [BackupStarted, DiscoveryStarted, DiscoveryCompleted] + Chains(lens, verify)
    + [RetentionApplied, BackupCompleted]
  }

  predicate InOpening(k: Kind) {
    k == BackupRequested || k == BackupStarted || k == DiscoveryStarted || k == DiscoveryCompleted
  }

  lemma NotInGoodTrace(head: seq<Kind>, lens: seq<nat>, verify: bool, k: Kind)
    requires head == [] || head == [BackupRequested]
    requires AllStops(lens, verify) && (lens == [] || k !in Chain(verify))
    requires !InOpening(k) && k != RetentionApplied && k != BackupCompleted
    ensures k !in GoodTrace(head, lens, verify)
  {
    ChainsOnlyHold(lens, verify, k);
    assert k !in head + [BackupStarted, DiscoveryStarted, DiscoveryCompleted];
    assert k !in [RetentionApplied, BackupCompleted];
  }

  lemma GoodTraceTier(head: seq<Kind>, lens: seq<nat>, verify: bool)
    requires head == [] || head == [BackupRequested]
    requires AllStops(lens, verify) && AllFull(lens, verify)
    ensures SealTier(GoodTrace(head, lens, verify)) == ExpectedTier(true, verify, |lens|)
  {
    NotInGoodTrace(head, lens, verify, BackupFailed);
    if lens == [] {
      NotInGoodTrace(head, lens, verify, RestoreVerificationCompleted);
      NotInGoodTrace(head, lens, verify, RepositoryVerificationCompleted);
      NotInGoodTrace(head, lens, verify, ArtifactCreated);
    } else {
      ChainsEndFull(lens, verify);
      if !verify {
        NotInGoodTrace(head, lens, verify, RestoreVerificationCompleted);
      }
    }
  }

  lemma WindowShowsSeal(head: seq<Kind>, lens: seq<nat>, verify: bool, n: nat)
    requires head == [] || head == [BackupRequested]
    requires AllStops(lens, verify) && AllFull(lens, verify) && (n >= 3 || lens == [])
    ensures SealTier(LastOf(GoodTrace(head, lens, verify), n)) == ExpectedTier(true, verify, |lens|)
  {
    var kinds := GoodTrace(head, lens, verify);
    var w := LastOf(kinds, n);
    NotInGoodTrace(head, lens, verify, BackupFailed);
    LastOfIsPart(kinds, n);
    if lens == [] {
      NotInGoodTrace(head, lens, verify, RestoreVerificationCompleted);
      NotInGoodTrace(head, lens, verify, RepositoryVerificationCompleted);
      NotInGoodTrace(head, lens, verify, ArtifactCreated);
    } else {
      if !verify {
        NotInGoodTrace(head, lens, verify, RestoreVerificationCompleted);
      }
      WindowShowsLastEvent(head, lens, verify, n);
    }
  }

  lemma LastOfIsPart(kinds: seq<Kind>, n: nat)
    ensures forall k :: k in LastOf(kinds, n) ==> k in kinds
  {
  }

  lemma WindowShowsLastEvent(head: seq<Kind>, lens: seq<nat>, verify: bool, n: nat)
    requires AllStops(lens, verify) && AllFull(lens, verify) && n >= 3 && lens != []
    ensures (if verify then RestoreVerificationCompleted else RepositoryVerificationCompleted)
         in LastOf(GoodTrace(head, lens, verify), n)
  {
    var kinds := GoodTrace(head, lens, verify);
    var c := Chains(lens, verify);
    ChainsEndFull(lens, verify);
    var w := LastOf(kinds, n);
    assert kinds[|kinds| - 3] == c[|c| - 1];
    assert w[|w| - 3] == kinds[|kinds| - 3];
  }

  /** The n newest events of a completed job show the seal of its whole trace exactly when n is
      at least three or the job had no resource. */
  lemma WindowShowsSealIff(head: seq<Kind>, lens: seq<nat>, verify: bool, n: nat)
    requires head == [] || head == [BackupRequested]
    requires AllStops(lens, verify) && AllFull(lens, verify) && n >= 1
    ensures
      var kinds := GoodTrace(head, lens, verify);
      SealTier(LastOf(kinds, n)) == SealTier(kinds) <==> n >= 3 || lens == []
  {
    GoodTraceTier(head, lens, verify);
    if n >= 3 || lens == [] {
      WindowShowsSeal(head, lens, verify, n);
    } else {
      ShortWindow(head + [BackupStarted, DiscoveryStarted, DiscoveryCompleted] + Chains(lens, verify), n);
    }
  }

  lemma ShortWindow(body: seq<Kind>, n: nat)
    requires 1 <= n <= 2
    ensures SealTier(LastOf(body + [RetentionApplied, BackupCompleted], n)) == TierNone
  {
    assert LastOf(body + [RetentionApplied, BackupCompleted], n)
        == if n == 1 then [BackupCompleted] else [RetentionApplied, BackupCompleted];
  }

  function PageKinds(page: seq<StoredEvent>): (kinds: seq<Kind>)
    ensures |kinds| == |page|
  {
    seq(|page|, i requires 0 <= i < |page| => page[i].event.kind)
  }

  function NewestPage(events: seq<StoredEvent>, n: nat): seq<StoredEvent> {
    if n < |events| then Reverse(events)[..n] else Reverse(events)
  }

  lemma NewestPageIsWindow(events: seq<StoredEvent>, n: nat)
    ensures
      var page, w := PageKinds(NewestPage(events, n)), LastOf(PageKinds(events), n);
      |page| == |w| && forall i :: 0 <= i < |w| ==> page[|w| - 1 - i] == w[i]
  {
  }

  /** The page holds the newest events, so it shows what the end of the trace shows. */
  lemma PageShowsWindow(f: EventFilter, rows: seq<StoredEvent>, page: seq<StoredEvent>)
    requires f.limit > 0 && IsPage(f, rows, page) && Increasing(Filtered(f, rows))
    ensures SealTier(PageKinds(page)) == SealTier(LastOf(PageKinds(Filtered(f, rows)), f.limit))
  {
    var events := Filtered(f, rows);
    PageIsNewest(f, rows, page);
    NewestPageIsWindow(events, f.limit);
    MirroredShowsSame(PageKinds(page), LastOf(PageKinds(events), f.limit));
  }

  lemma PageIsNewest(f: EventFilter, rows: seq<StoredEvent>, page: seq<StoredEvent>)
    requires f.limit > 0 && IsPage(f, rows, page) && Increasing(Filtered(f, rows))
    ensures page == NewestPage(Filtered(f, rows), f.limit)
  {
    var full :| multiset(full) == multiset(Filtered(f, rows)) && NewestFirst(full)
      && page == if 0 < f.limit < |full| then full[..f.limit] else full;
    NewestFirstIsReverse(full, Filtered(f, rows));
  }

  lemma MirroredShowsSame(a: seq<Kind>, b: seq<Kind>)
    requires |a| == |b| && forall i :: 0 <= i < |b| ==> a[|b| - 1 - i] == b[i]
    ensures SealTier(a) == SealTier(b)
  {
    forall k
      ensures k in a <==> k in b
    {
      if k in a {
        var i :| 0 <= i < |a| && a[i] == k;
        assert b[|b| - 1 - i] == k;
      }
      if k in b {
        var i :| 0 <= i < |b| && b[i] == k;
        assert a[|b| - 1 - i] == k;
      }
    }
  }

  lemma FailedShowsFailed(kinds: seq<Kind>, n: nat)
    requires kinds != [] && kinds[|kinds| - 1] == BackupFailed && n > 0
    ensures SealTier(kinds) == SealTier(LastOf(kinds, n)) == TierFailed
  {
    assert LastOf(kinds, n)[|LastOf(kinds, n)| - 1] == BackupFailed;
  }

  /** The seal of the job page is sound under truncation: with every event of the job stored and
      timestamps increasing, the seal computed from the newest `limit` events is the seal of
      the whole trace, for any limit from three on, and says what the job's outcome says. */
  lemma SealIsSound(srv: Server, job: Job, snapshots: seq<Snapshot>, out: PipelineOutcome, verify: bool,
                    requested: bool, rows: seq<StoredEvent>, page: seq<StoredEvent>, limit: nat)
    requires limit >= 3
    requires
      var mine := Filtered(EventFilter(job.id, "", limit), rows);
      && Increasing(mine)
      && PageKinds(mine)
         == (if requested then [BackupRequested] else []) + Kinds(JobTrace(srv, job, snapshots, out, verify))
    requires IsPage(EventFilter(job.id, "", limit), rows, page)
    ensures
      var all := PageKinds(Filtered(EventFilter(job.id, "", limit), rows));
      SealTier(PageKinds(page)) == SealTier(all)
        == ExpectedTier(ResultOf(srv, job, snapshots, out, verify).Success?, verify, |Attempted(srv, job, out)|)
  {
    var f := EventFilter(job.id, "", limit);
    PageShowsWindow(f, rows, page);
    TraceShowsSeal(srv, job, snapshots, out, verify, if requested then [BackupRequested] else [], limit);
  }

  lemma TraceShowsSeal(srv: Server, job: Job, snapshots: seq<Snapshot>, out: PipelineOutcome, verify: bool,
                       head: seq<Kind>, n: nat)
    requires (head == [] || head == [BackupRequested]) && n >= 3
    ensures
      var all := head + Kinds(JobTrace(srv, job, snapshots, out, verify));
      SealTier(LastOf(all, n)) == SealTier(all)
        == ExpectedTier(ResultOf(srv, job, snapshots, out, verify).Success?, verify, |Attempted(srv, job, out)|)
  {
    if ResultOf(srv, job, snapshots, out, verify).Success? {
      CompletedIsGoodTrace(srv, job, snapshots, out, verify, head);
      var lens := Lens(Stages(snapshots, job, out.discovered.value, verify), verify);
      GoodTraceTier(head, lens, verify);
      WindowShowsSeal(head, lens, verify, n);
    } else {
      var trace := JobTrace(srv, job, snapshots, out, verify);
      assert trace[|trace| - 1].kind == BackupFailed;
      FailedShowsFailed(head + Kinds(trace), n);
    }
  }

  lemma CompletedIsGoodTrace(srv: Server, job: Job, snapshots: seq<Snapshot>, out: PipelineOutcome, verify: bool,
                             head: seq<Kind>)
    requires ResultOf(srv, job, snapshots, out, verify).Success?
    ensures
      var lens := Lens(Stages(snapshots, job, out.discovered.value, verify), verify);
      && AllStops(lens, verify) && AllFull(lens, verify)
      && head + Kinds(JobTrace(srv, job, snapshots, out, verify)) == GoodTrace(head, lens, verify)
  {
    var attempts := out.discovered.value;
    var stages := Stages(snapshots, job, attempts, verify);
    StagesAreStops(snapshots, job, attempts, verify);
    StagesDecide(snapshots, job, attempts, verify);
    KindsOfResourceEvents(job, attempts, stages, verify);
    KindsOfJobTrace(srv, job, snapshots, out, verify);
    RegroupTrace(head, [BackupStarted, DiscoveryStarted, DiscoveryCompleted], Chains(Lens(stages, verify), verify),
            RetentionApplied, BackupCompleted);
  }

  lemma RegroupTrace(head: seq<Kind>, opening: seq<Kind>, chains: seq<Kind>, a: Kind, b: Kind)
    ensures head + (opening + chains + [a] + [b]) == head + opening + chains + [a, b]
  {
  }

  // ---- The assumptions of the seal's soundness can be met ----

  /** The event table after a trace, one event a tick. */
  function StoredTrace(trace: seq<Event>): (rows: seq<StoredEvent>)
    ensures |rows| == |trace| && forall i :: 0 <= i < |rows| ==> rows[i] == StoredEvent(trace[i], i)
  {
    seq(|trace|, i requires 0 <= i < |trace| => StoredEvent(trace[i], i))
  }

  lemma {:induction false} AllFiltered(f: EventFilter, rows: seq<StoredEvent>)
    requires forall i :: 0 <= i < |rows| ==> Matches(f, rows[i].event)
    ensures Filtered(f, rows) == rows
  {
    if rows == [] {
    } else {
      AllFiltered(f, rows[1..]);
      assert [rows[0]] + rows[1..] == rows;
    }
  }

  lemma {:induction false} ReverseSame(s: seq<StoredEvent>)
    ensures multiset(Reverse(s)) == multiset(s)
  {
    if s == [] {
    } else {
      ReverseSame(s[..|s| - 1]);
      assert s == s[..|s| - 1] + [s[|s| - 1]];
    }
  }

  /** The newest page is an answer of the select. */
  lemma NewestPageIsPage(f: EventFilter, rows: seq<StoredEvent>)
    requires f.limit > 0 && Increasing(Filtered(f, rows))
    ensures IsPage(f, rows, NewestPage(Filtered(f, rows), f.limit))
  {
    var events := Filtered(f, rows);
    var full := Reverse(events);
    ReverseSame(events);
    assert NewestFirst(full);
    assert NewestPage(events, f.limit) == if 0 < f.limit < |full| then full[..f.limit] else full;
  }

  /** A job run against an empty event table, its trace stored, its newest page read: the seal says
      what the outcome says. */
  lemma SealOfStoredJob(srv: Server, job: Job, snapshots: seq<Snapshot>, out: PipelineOutcome, verify: bool, limit: nat)
    requires limit >= 3
    ensures
      var rows := StoredTrace(JobTrace(srv, job, snapshots, out, verify));
      var f := EventFilter(job.id, "", limit);
      var page := NewestPage(Filtered(f, rows), limit);
      && IsPage(f, rows, page)
      && SealTier(PageKinds(page))
         == ExpectedTier(ResultOf(srv, job, snapshots, out, verify).Success?, verify, |Attempted(srv, job, out)|)
  {
    var trace := JobTrace(srv, job, snapshots, out, verify);
    JobTraceMatches(srv, job, snapshots, out, verify);
    StoredTraceIsRead(trace, job.id, limit);
    var rows := StoredTrace(trace);
    SealIsSound(srv, job, snapshots, out, verify, false, rows, NewestPage(rows, limit), limit);
  }

  lemma StoredTraceIsRead(trace: seq<Event>, id: string, limit: nat)
    requires limit > 0 && forall i :: 0 <= i < |trace| ==> trace[i].jobId == id
    ensures
      var rows := StoredTrace(trace);
      var f := EventFilter(id, "", limit);
      && Filtered(f, rows) == rows && Increasing(rows)
      && IsPage(f, rows, NewestPage(rows, limit)) && PageKinds(rows) == [] + Kinds(trace)
  {
    var f := EventFilter(id, "", limit);
    AllFiltered(f, StoredTrace(trace));
    NewestPageIsPage(f, StoredTrace(trace));
    StoredKinds(trace);
  }

  lemma StoredKinds(trace: seq<Event>)
    ensures PageKinds(StoredTrace(trace)) == [] + Kinds(trace)
  {
  }
}
