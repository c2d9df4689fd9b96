/** The data-fetching hook's guard against stale responses. */
module UseApi {
  import opened Core

  datatype Purpose = Foreground | Background

  /** A value written to `data`: by which request, and the newest request at that moment. */
  datatype Written<T> = Written(id: nat, newest: nat, value: T)

  /** What can happen next, in any order: calls of load and refresh, and responses to requests. */
  datatype Action<T> = Load | Refresh | Resolve(id: nat, value: T) | Reject(id: nat, message: string)

  /** The hook's state, the requests without a response yet, and what was written so far. */
  datatype Ui<T> = Ui(
    data: Option<T>,
    error: Option<string>,
    loading: bool,
    requestId: nat,
    pending: map<nat, Purpose>,
    writes: seq<Written<T>>)

  // ---- One action ----

  /** The response `id` is due, and no newer request was made. */
  predicate IsNewest<T>(u: Ui<T>, id: nat) {
    id in u.pending && id == u.requestId
  }

  /** What the user must see of one action. */
  function Step<T>(u: Ui<T>, a: Action<T>): Ui<T> {
    match a
    case Load =>
      u.(requestId := u.requestId + 1, pending := u.pending[u.requestId + 1 := Foreground],
         loading := true, error := None)
    case Refresh =>
      u.(requestId := u.requestId + 1, pending := u.pending[u.requestId + 1 := Background])
    case Resolve(id, value) =>
      var settled := u.(pending := u.pending - {id});
      if !IsNewest(u, id) then settled
      else settled.(data := Some(value), writes := u.writes + [Written(id, u.requestId, value)],
                    loading := u.loading && u.pending[id] == Background)
    case Reject(id, message) =>
      var settled := u.(pending := u.pending - {id});
      if !IsNewest(u, id) || u.pending[id] == Background then settled
      else settled.(error := Some(message), loading := false)
  }

  function Run<T>(u: Ui<T>, actions: seq<Action<T>>): Ui<T>
    decreases |actions|
  {
    if actions == [] then u else Run(Step(u, actions[0]), actions[1..])
  }

  class Hook<T> {
    var data: Option<T>
    var error: Option<string>
    var loading: bool
    var requestId: nat
    var pending: map<nat, Purpose>    // requests without a response yet
    ghost var writes: seq<Written<T>>

    ghost function Now(): Ui<T>
      reads this
    {
      Ui(data, error, loading, requestId, pending, writes)
    }

    constructor ()
      ensures Now() == Ui(None, None, true, 0, map[], [])
    {
      data, error, loading, requestId, pending, writes := None, None, true, 0, map[], [];
    }

    method DoLoad()
      modifies this
      ensures Now() == Step(old(Now()), Load)
      ensures requestId == old(requestId) + 1 && pending == old(pending)[requestId := Foreground]
      ensures loading && error == None && data == old(data)
    {
      requestId := requestId + 1;
      loading, error := true, None;
      pending := pending[requestId := Foreground];
    }

    method DoRefresh()
      modifies this
      ensures Now() == Step(old(Now()), Refresh)
      ensures requestId == old(requestId) + 1 && pending == old(pending)[requestId := Background]
      ensures loading == old(loading) && error == old(error) && data == old(data)
    {
      requestId := requestId + 1;
      pending := pending[requestId := Background];
    }

    method OnResolve(id: nat, value: T)
      requires id in pending
      modifies this
      ensures Now() == Step(old(Now()), Resolve(id, value))
      ensures data == (if id == requestId then Some(value) else old(data)) && error == old(error)
      ensures loading == (old(loading) && !(id == requestId && old(pending)[id] == Foreground))
      ensures requestId == old(requestId) && pending == old(pending) - {id}
    {
      var purpose := pending[id];
      pending := pending - {id};
      if id != requestId {
        return;
      }
      data := Some(value);
      writes := writes + [Written(id, requestId, value)];
      if purpose == Foreground {
        loading := false;
      }
    }

    method OnReject(id: nat, message: string)
      requires id in pending
      modifies this
      ensures Now() == Step(old(Now()), Reject(id, message))
      ensures
        var shown := id == requestId && old(pending)[id] == Foreground;
        error == (if shown then Some(message) else old(error)) && loading == (old(loading) && !shown)
      ensures data == old(data) && requestId == old(requestId) && pending == old(pending) - {id}
    {
      var purpose := pending[id];
      pending := pending - {id};
      if purpose == Background || id != requestId {
        return;
      }
      error := Some(message);
      loading := false;
    }

    /** One action; a request that already has its response gets no second one. */
    method Happen(a: Action<T>)
      modifies this
      ensures Now() == Step(old(Now()), a)
    {
      match a
      case Load => DoLoad();
      case Refresh => DoRefresh();
      case Resolve(id, value) =>
        if id in pending {
          OnResolve(id, value);
        } else {
          assert pending - {id} == pending;
        }
      case Reject(id, message) =>
        if id in pending {
          OnReject(id, message);
        } else {
          assert pending - {id} == pending;
        }
    }

    /** Any interleaving. */
    method HappenAll(actions: seq<Action<T>>)
      modifies this
      ensures Now() == Run(old(Now()), actions)
    {
      var i := 0;
      assert actions[0..] == actions;
      while i < |actions|
        invariant i <= |actions|
        invariant Run(old(Now()), actions) == Run(Now(), actions[i..])
      {
        assert actions[i..][1..] == actions[i + 1..];
        Happen(actions[i]);
        i := i + 1;
      }
    }
  }

  // ---- What holds of every interleaving ----

  /** The requests that wrote the data are ever newer, each was the newest when it wrote, none has a
      response to come, and the data is the last one's. */
  ghost predicate Guarded<T>(u: Ui<T>) {
    && (forall id :: id in u.pending ==> id <= u.requestId)
    && (forall i :: 0 <= i < |u.writes| ==>
        u.writes[i].id == u.writes[i].newest <= u.requestId && u.writes[i].id !in u.pending)
    && (forall i, j :: 0 <= i < j < |u.writes| ==> u.writes[i].id < u.writes[j].id)
    && u.data == if u.writes == [] then None else Some(u.writes[|u.writes| - 1].value)
  }

  lemma StepKeepsGuarded<T>(u: Ui<T>, a: Action<T>)
    requires Guarded(u)
    ensures Guarded(Step(u, a)) && u.writes <= Step(u, a).writes
  {
    if a.Resolve? && IsNewest(u, a.id) {
      forall i | 0 <= i < |u.writes|
        ensures u.writes[i].id < a.id
      {
        assert u.writes[i].id != a.id;
      }
    }
  }

  /** For every interleaving of calls and responses, from the first render on. */
  lemma {:induction false} RunKeepsGuarded<T>(u: Ui<T>, actions: seq<Action<T>>)
    requires Guarded(u)
    ensures Guarded(Run(u, actions)) && u.writes <= Run(u, actions).writes
    decreases |actions|
  {
    if actions == [] {
    } else {
      StepKeepsGuarded(u, actions[0]);
      RunKeepsGuarded(Step(u, actions[0]), actions[1..]);
    }
  }

  /** A response clears `loading` exactly when it answers the newest request and that one is a load. */
  lemma LoadingClearsIff<T>(u: Ui<T>, a: Action<T>)
    requires u.loading
    ensures !Step(u, a).loading
       <==> (a.Resolve? || a.Reject?) && IsNewest(u, a.id) && u.pending[a.id] == Foreground
  {
  }

  /** The error on show is the message of this action: the newest request failed with it, that was a load,
      and no load was made since. */
  ghost predicate Showed<T>(u: Ui<T>, actions: seq<Action<T>>, i: nat, message: string)
    requires i < |actions|
  {
    && actions[i].Reject? && actions[i].message == message
    && IsNewest(Run(u, actions[..i]), actions[i].id) && Run(u, actions[..i]).pending[actions[i].id] == Foreground
    && Load !in actions[i + 1..]
  }

  lemma ShowedLater<T>(u: Ui<T>, actions: seq<Action<T>>, i: nat, message: string)
    requires i + 1 < |actions| && Showed(Step(u, actions[0]), actions[1..], i, message)
    ensures Showed(u, actions, i + 1, message)
  {
    assert actions[1..][..i] == actions[..i + 1][1..] && actions[1..][i] == actions[i + 1];
    assert actions[1..][i + 1..] == actions[i + 2..];
  }

  /** For every interleaving: an error that is on show was there before and no load has been made, or it is
      the failure of a load that was the newest request when it failed, with no load after it. */
  lemma {:induction false} ErrorIsOfNewestLoad<T>(u: Ui<T>, actions: seq<Action<T>>)
    ensures
      var error := Run(u, actions).error;
      error.Some? ==>
        || (error == u.error && Load !in actions)
        || exists i :: 0 <= i < |actions| && Showed(u, actions, i, error.value)
    decreases |actions|
  {
    if actions == [] {
    } else {
      var next := Step(u, actions[0]);
      var error := Run(u, actions).error;
      ErrorIsOfNewestLoad(next, actions[1..]);
      if error.Some? {
        if i :| 0 <= i < |actions[1..]| && Showed(next, actions[1..], i, error.value) {
          ShowedLater(u, actions, i, error.value);
        } else if next.error != u.error {
          assert actions[..0] == [] && actions[0 + 1..] == actions[1..];
          assert Showed(u, actions, 0, error.value);
        } else {
          assert actions == [actions[0]] + actions[1..];
        }
      }
    }
  }

  /** No response can still clear `loading`. */
  predicate Stuck<T>(u: Ui<T>) {
    u.loading && (u.requestId in u.pending ==> u.pending[u.requestId] == Background)
  }

  lemma {:induction false} StuckStays<T>(u: Ui<T>, actions: seq<Action<T>>)
    requires Stuck(u) && Load !in actions
    ensures Stuck(Run(u, actions))
    decreases |actions|
  {
    if actions == [] {
    } else {
      assert actions[0] in actions;
      StuckStays(Step(u, actions[0]), actions[1..]);
    }
  }

  /** While loading, the flag stays on whatever happens short of another load exactly when the newest
      request is no load still under way: after a refresh that superseded one, for example. */
  lemma LoadingStaysOnIff<T(!new)>(u: Ui<T>)
    requires u.loading
    ensures (forall actions :: Load !in actions ==> Run(u, actions).loading) <==> Stuck(u)
  {
    if Stuck(u) {
      forall actions | Load !in actions
        ensures Run(u, actions).loading
      {
        StuckStays(u, actions);
      }
    } else {
      var answer := [Reject(u.requestId, "")];
      assert answer[1..] == [];
      assert Load !in answer && !Run(u, answer).loading;
    }
  }

  lemma RefreshSupersedes<T>(u: Ui<T>)
    requires u.loading
    ensures Stuck(Step(u, Refresh))
  {
  }
}
