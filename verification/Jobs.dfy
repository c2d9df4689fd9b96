/** The jobs table: its statements as functions on the rows, and the store methods
    that run them. */
module Jobs {
  import opened Core

  datatype Row = Row(job: Job, status: Status)
  type Table = map<string, Row>

  function Terminal(ok: bool): Status {
    if ok then Completed else Failed
  }

  function WithStatus(t: Table, status: Status): set<string> {
    set id | id in t && t[id].status == status
  }

  /** UPDATE jobs SET status = ? WHERE id = ?, whatever the old status is. */
  function SetStatus(t: Table, id: string, status: Status): Table {
    if id in t then t[id := t[id].(status := status)] else t
  }

  /** UPDATE jobs SET status = failed WHERE status = in_progress. */
  function FailInProgress(t: Table): Table {
    map id | id in t :: if t[id].status == InProgress then t[id].(status := Failed) else t[id]
  }

  /** What SELECT ... WHERE status = ? ORDER BY queued_at may return: ties are in any order. */
  ghost predicate IsListing(t: Table, status: Status, listing: seq<Job>) {
    && (forall i, j :: 0 <= i < j < |listing| ==>
          listing[i].queuedAt <= listing[j].queuedAt && listing[i].id != listing[j].id)
    && (forall i :: 0 <= i < |listing| ==>
          listing[i].id in t && t[listing[i].id] == Row(listing[i], status))
    && (forall id :: id in t && t[id].status == status ==> t[id].job in listing)
  }

  /** The select has an answer on every table keyed by job ID. */
  lemma ListingExists(t: Table, status: Status) returns (listing: seq<Job>)
    requires forall id :: id in t ==> t[id].job.id == id
    ensures IsListing(t, status, listing)
  {
    listing := SortedOver(t, status, WithStatus(t, status));
    assert forall i :: 0 <= i < |listing| ==> listing[i] in listing;
  }

  ghost predicate InOrder(listing: seq<Job>) {
    forall i, j :: 0 <= i < j < |listing| ==>
      listing[i].queuedAt <= listing[j].queuedAt && listing[i].id != listing[j].id
  }

  lemma InsertInOrder(rest: seq<Job>, job: Job) returns (listing: seq<Job>)
    requires InOrder(rest)
    requires forall i :: 0 <= i < |rest| ==> rest[i].id != job.id
    ensures InOrder(listing)
    ensures forall other :: other in listing <==> other == job || other in rest
  {
    var k := 0;
    while k < |rest| && rest[k].queuedAt <= job.queuedAt
      invariant k <= |rest|
      invariant forall i :: 0 <= i < k ==> rest[i].queuedAt <= job.queuedAt
    {
      k := k + 1;
    }
    assert rest == rest[..k] + rest[k..];
    listing := InsertBetween(rest[..k], job, rest[k..]);
  }

  lemma InsertBetween(before: seq<Job>, job: Job, after: seq<Job>) returns (listing: seq<Job>)
    requires InOrder(before + after)
    requires forall i :: 0 <= i < |before| ==> before[i].queuedAt <= job.queuedAt && before[i].id != job.id
    requires forall i :: 0 <= i < |after| ==> job.queuedAt <= after[i].queuedAt && after[i].id != job.id
    ensures listing == before + [job] + after && InOrder(listing)
    ensures forall other :: other in listing <==> other == job || other in before + after
  {
    listing := before + [job] + after;
    var rest := before + after;
    forall i, j | 0 <= i < j < |listing|
      ensures listing[i].queuedAt <= listing[j].queuedAt && listing[i].id != listing[j].id
    {
      var i', j' := if i < |before| then i else i - 1, if j < |before| then j else j - 1;
      assert i < |before| ==> listing[i] == rest[i'];
      assert i > |before| ==> listing[i] == rest[i'];
      assert j < |before| ==> listing[j] == rest[j'];
      assert j > |before| ==> listing[j] == rest[j'];
    }
  }

  lemma {:induction false} SortedOver(t: Table, status: Status, ids: set<string>) returns (listing: seq<Job>)
    requires forall id :: id in t ==> t[id].job.id == id
    requires ids <= WithStatus(t, status)
    ensures InOrder(listing)
    ensures forall job :: job in listing <==> job.id in ids && t[job.id].job == job
    decreases |ids|
  {
    if ids == {} {
      listing := [];
    } else {
      var id :| id in ids;
      var rest := SortedOver(t, status, ids - {id});
      assert forall i :: 0 <= i < |rest| ==> rest[i] in rest;
      listing := InsertInOrder(rest, t[id].job);
    }
  }

  /** The rows after RunJob: a job that cannot be started keeps its row, and each write may fail. */
  function RowsAfter(rows: Table, id: string, startable: bool, start: Write, ok: bool, finish: Write): Table {
    if !startable || start == Rejected || id !in rows then rows
    else if start == Unacknowledged || finish == Rejected then SetStatus(rows, id, InProgress)
    else SetStatus(SetStatus(rows, id, InProgress), id, Terminal(ok))
  }

  /** For a job that can be started and has a row. */
  lemma RowsAfterAre(rows: Table, id: string, start: Write, finish: Write)
    ensures start == Applied && id in rows ==>
      forall ok :: RowsAfter(rows, id, true, start, ok, finish)
                == rows[id := Row(rows[id].job,
                                  if finish == Rejected then InProgress else if ok then Completed else Failed)]
    ensures start == Unacknowledged && id in rows ==>
      forall ok :: RowsAfter(rows, id, true, start, ok, finish) == rows[id := Row(rows[id].job, InProgress)]
    ensures start == Rejected || id !in rows ==>
      forall ok :: RowsAfter(rows, id, true, start, ok, finish) == rows
  {
  }

  datatype UpdateError = ErrExec | ErrJobNotFound

  /** The jobs side of metadata.Store. `w` is what the database makes of the statement. */
  class JobTable {
    var rows: Table

    constructor ()
      ensures rows == map[]
    {
      rows := map[];
    }

    /** INSERT: the primary key rejects an ID that is already there. */
    method CreateJob(job: Job, w: Write) returns (ok: bool)
      modifies this
      ensures ok <==> w == Applied && job.id !in old(rows)
      ensures rows == if w == Rejected || job.id in old(rows) then old(rows)
                      else old(rows)[job.id := Row(job, Queued)]
    {
      if job.id in rows || w == Rejected {
        return false;
      }
      rows := rows[job.id := Row(job, Queued)];
      ok := w == Applied;
    }

    /** UPDATE by ID; no row affected is reported as ErrJobNotFound. */
    method UpdateJobStatus(id: string, status: Status, w: Write) returns (err: Option<UpdateError>)
      modifies this
      ensures rows == if w == Rejected then old(rows) else SetStatus(old(rows), id, status)
      ensures err == if w != Applied then Some(ErrExec) else if id in old(rows) then None else Some(ErrJobNotFound)
    {
      var affected := false;
      if w != Rejected && id in rows {
        rows := rows[id := rows[id].(status := status)];
        affected := true;
      }
      if w != Applied {
        return Some(ErrExec);
      }
      err := if affected then None else Some(ErrJobNotFound);
    }

    /** UPDATE of every in_progress row; returns how many there were. */
    method FailOrphanedJobs(w: Write) returns (n: Option<nat>)
      modifies this
      ensures rows == if w == Rejected then old(rows) else FailInProgress(old(rows))
      ensures n == if w == Applied then Some(|WithStatus(old(rows), InProgress)|) else None
    {
      var orphans := set id | id in rows && rows[id].status == InProgress;
      assert orphans == WithStatus(rows, InProgress);
      if w != Rejected {
        rows := map id | id in rows :: if id in orphans then rows[id].(status := Failed) else rows[id];
      }
      n := if w == Applied then Some(|orphans|) else None;
    }
  }
}
