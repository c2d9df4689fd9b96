/** The bounded in-memory queue. */
module Queue {
  import opened Core

  /** A buffered channel of jobs. */
  class Memory {
    const capacity: nat
    var jobs: seq<Job>

    ghost predicate Valid()
      reads this
    {
      |jobs| <= capacity
    }

    constructor (capacity: nat)
      ensures Valid() && this.capacity == capacity && jobs == []
    {
      this.capacity := capacity;
      jobs := [];
    }

    /** Never blocks: a full queue refuses the job (ErrQueueFull). */
    method Enqueue(job: Job) returns (ok: bool)
      requires Valid()
      modifies this
      ensures Valid()
      ensures ok <==> |old(jobs)| < capacity
      ensures jobs == if ok then old(jobs) + [job] else old(jobs)
    {
      ok := |jobs| < capacity;
      if ok {
        jobs := jobs + [job];
      }
    }

    /** The oldest job, or None when the wait ends by cancellation. With both ready the
        select may take either, so `cancelled` is a free choice. */
    method Dequeue(cancelled: bool) returns (job: Option<Job>)
      requires Valid()
      modifies this
      ensures Valid()
      ensures job == if cancelled || old(jobs) == [] then None else Some(old(jobs)[0])
      ensures jobs == if job.Some? then old(jobs)[1..] else old(jobs)
    {
      if cancelled || jobs == [] {
        return None;
      }
      job := Some(jobs[0]);
      jobs := jobs[1..];
    }
  }
}
