/** The events the controller and the producers publish. */
module Events {
  import opened Core

  datatype Kind =
    | BackupRequested | BackupStarted | BackupCompleted | BackupFailed
    | DiscoveryStarted | DiscoveryCompleted
    | ArtifactCreated | UploadStarted | UploadCompleted
    | RepositoryVerificationStarted | RepositoryVerificationCompleted
    | RestoreVerificationStarted | RestoreVerificationCompleted
    | RetentionApplied

  /** `resource` is "" unless the event belongs to one resource. */
  datatype Event = Event(kind: Kind, jobId: string, host: string, plugin: string, resource: string)

  function Kinds(trace: seq<Event>): (kinds: seq<Kind>)
    ensures |kinds| == |trace|
  {
    seq(|trace|, i requires 0 <= i < |trace| => trace[i].kind)
  }

  predicate IsLifecycle(kind: Kind) {
    kind == BackupStarted || kind == BackupCompleted || kind == BackupFailed
  }

  /** The events that start or end a job. */
  function Lifecycle(trace: seq<Event>): seq<Event> {
    if trace == [] then []
    else (if IsLifecycle(trace[0].kind) then [trace[0]] else []) + Lifecycle(trace[1..])
  }

  lemma {:induction false} LifecycleAppend(a: seq<Event>, b: seq<Event>)
    ensures Lifecycle(a + b) == Lifecycle(a) + Lifecycle(b)
    decreases |a|
  {
    if a == [] {
      assert a + b == b;
    } else {
      assert (a + b)[1..] == a[1..] + b;
      LifecycleAppend(a[1..], b);
      var head := if IsLifecycle(a[0].kind) then [a[0]] else [];
      assert Lifecycle(a + b) == head + Lifecycle(a[1..] + b);
      assert head + (Lifecycle(a[1..]) + Lifecycle(b)) == head + Lifecycle(a[1..]) + Lifecycle(b);
    }
  }

  lemma {:induction false} NoLifecycle(trace: seq<Event>)
    requires forall i :: 0 <= i < |trace| ==> !IsLifecycle(trace[i].kind)
    ensures Lifecycle(trace) == []
    decreases |trace|
  {
    if trace == [] {
    } else {
      NoLifecycle(trace[1..]);
    }
  }

  /** The consumer is serial: starts and ends alternate, each end names the job that was started.
      `inFlight` is the job running when the stream begins, if any. */
  predicate Serial(life: seq<Event>, inFlight: Option<string>) {
    life == []
    || (match inFlight
        case None => life[0].kind == BackupStarted && Serial(life[1..], Some(life[0].jobId))
        case Some(id) => (life[0].kind == BackupCompleted || life[0].kind == BackupFailed)
                         && life[0].jobId == id && Serial(life[1..], None))
  }

  /** The job in flight after a serial stream. */
  function InFlight(life: seq<Event>, inFlight: Option<string>): Option<string> {
    if life == [] then inFlight
    else InFlight(life[1..], if life[0].kind == BackupStarted then Some(life[0].jobId) else None)
  }

  lemma {:induction false} SerialAppend(a: seq<Event>, b: seq<Event>, inFlight: Option<string>)
    ensures Serial(a + b, inFlight) <==> Serial(a, inFlight) && Serial(b, InFlight(a, inFlight))
    ensures InFlight(a + b, inFlight) == InFlight(b, InFlight(a, inFlight))
    decreases |a|
  {
    if a == [] {
      assert a + b == b;
    } else {
      assert (a + b)[1..] == a[1..] + b;
      SerialAppend(a[1..], b, if a[0].kind == BackupStarted then Some(a[0].jobId) else None);
    }
  }
}
