/** Types shared by the rest of the model, and the constructor of jobs. */
module Core {
  import opened Decimal

  datatype Option<+T> = None | Some(value: T)

  datatype Policy = Policy(daily: int, weekly: int, monthly: int, yearly: int)

  datatype Status = Queued | InProgress | Completed | Failed

  datatype Job = Job(id: string, host: string, plugin: string, policy: Policy, queuedAt: int)

  /** How a database write can end: done and acknowledged, not done, or done
      although the caller is told that it failed (a lost acknowledgement). */
  datatype Write = Applied | Rejected | Unacknowledged

  /** What a restore test appends to the resource's ID. */
  const RESTORE_TEST_SUFFIX := "-bop-verify"

  predicate IsRestoreTest(resourceId: string) {
    |RESTORE_TEST_SUFFIX| <= |resourceId| && resourceId[|resourceId| - |RESTORE_TEST_SUFFIX|..] == RESTORE_TEST_SUFFIX
  }

  /** A restore-test target is some resource's ID with the suffix, and nothing else is one. */
  lemma IsRestoreTestIff(id: string)
    ensures IsRestoreTest(id) <==> exists resource: string :: id == resource + "-bop-verify"
  {
    if IsRestoreTest(id) {
      assert id == id[..|id| - |RESTORE_TEST_SUFFIX|] + RESTORE_TEST_SUFFIX;
    }
    forall resource: string | id == resource + "-bop-verify"
      ensures IsRestoreTest(id)
    {
      assert id[|resource|..] == RESTORE_TEST_SUFFIX;
    }
  }

  /** Builds a job from one clock reading. `nanos` is the reading inside the ID;
      `queuedAt` is the second, later reading. */
  function NewJob(host: string, plugin: string, policy: Policy, nanos: nat, queuedAt: int): (job: Job)
  {
    Job(host + "-" + plugin + "-" + Itoa(nanos), host, plugin, policy, queuedAt)
  }

  /** IDs are only as unique as the clock: two jobs get the same ID exactly when host and plugin
      read the same once joined and the clock readings are equal. */
  lemma JobIdsCollideIff(hostA: string, pluginA: string, policyA: Policy, nanosA: nat, atA: int,
                         hostB: string, pluginB: string, policyB: Policy, nanosB: nat, atB: int)
    ensures NewJob(hostA, pluginA, policyA, nanosA, atA).id == NewJob(hostB, pluginB, policyB, nanosB, atB).id
       <==> hostA + "-" + pluginA == hostB + "-" + pluginB && nanosA == nanosB
  {
    if NewJob(hostA, pluginA, policyA, nanosA, atA).id == NewJob(hostB, pluginB, policyB, nanosB, atB).id {
      SuffixAfterDash(hostA + "-" + pluginA, Itoa(nanosA), hostB + "-" + pluginB, Itoa(nanosB));
    }
  }

  lemma DashThenDigits(p: string, s: string)
    requires AllDigits(s)
    ensures
      var whole := p + "-" + s;
      whole[|p|] == '-' && (forall i :: |p| < i < |whole| ==> whole[i] != '-')
      && p == whole[..|p|] && s == whole[|p| + 1..]
  {
    var whole := p + "-" + s;
    assert forall i :: |p| < i < |whole| ==> whole[i] == s[i - |p| - 1];
  }

  lemma SuffixAfterDash(p: string, s: string, q: string, t: string)
    requires AllDigits(s) && AllDigits(t)
    requires p + "-" + s == q + "-" + t
    ensures p == q && s == t
  {
    DashThenDigits(p, s);
    DashThenDigits(q, t);
  }

  /** A host named "a-b" with plugin "c" and a host "a" with plugin "b-c" share IDs. */
  lemma JobIdsCanCollide(policy: Policy, nanos: nat, at: int)
    ensures NewJob("a-b", "c", policy, nanos, at).id == NewJob("a", "b-c", policy, nanos, at).id
  {
    assert "a-b" + "-" + "c" == "a" + "-" + "b-c";
  }

  // ---- Sequences ----

  function Times<T>(x: T, n: nat): seq<T> {
    if n == 0 then [] else [x] + Times(x, n - 1)
  }

  predicate Distinct<T(==)>(s: seq<T>) {
    forall i, j :: 0 <= i < j < |s| ==> s[i] != s[j]
  }

  lemma Append3<T>(a: seq<T>, b: seq<T>, c: seq<T>)
    ensures a + b + c == a + (b + c)
  {
  }

  lemma ConsTail<T>(x: T, xs: seq<T>, rest: seq<T>)
    ensures ([x] + xs + rest)[0] == x && ([x] + xs + rest)[1..] == xs + rest
  {
  }

  lemma Regroup<T>(a: seq<T>, b: seq<T>, c: seq<T>, d: seq<T>, e: seq<T>)
    ensures a + b + c + d + e == a + (b + (c + (d + e)))
  {
  }
}
