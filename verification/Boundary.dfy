/** The execution boundary (server/src/locker/boundary.rs) and the launcher that
writes it before every job (server/src/executor.rs). */
module Boundary {
  import opened Locker
  import opened Wrappers

  type JobId = nat

  datatype ProcessError = Interrupted | OtherError(code: nat)

  /** Times, exit codes and actors are folded into `detail`. */
  datatype JobStatus =
    | Cancelled(job: JobId, detail: nat)
    | Queued(job: JobId, detail: nat)
    | Error(job: JobId, error: ProcessError)
    | Started(job: JobId, detail: nat)
    | Stopped(job: JobId, detail: nat)
    | Skipped(job: JobId, detail: nat)
  {
    predicate IsTerminal() { Cancelled? || Error? || Stopped? || Skipped? }
  }

  datatype Boundary = Boundary(network: nat, session: nat, number: nat, job: JobId, successor: JobId, status: Option<JobStatus>)

  /** A record's bytes: the encoding of a boundary, or anything that does not
      decode to one (another version, or scribble). */
  datatype Stored = Readable(boundary: Boundary) | Garbled(text: nat)

  /** Whether an ending replaces what is recorded: the first ending does, and a
      stop displaces an adjudicated interruption. */
  predicate Displaces(recorded: Option<JobStatus>, status: JobStatus) {
    || recorded.None?
    || (recorded.value.Error? && recorded.value.error.Interrupted? && status.Stopped?)
  }

  /** The record that `status` turns `recorded` into, if it changes it. */
  function Updated(recorded: Option<Boundary>, status: JobStatus): (r: Option<Boundary>)
    ensures r.Some? ==> recorded.Some? && r.value == recorded.value.(status := Some(status))
  {
    if recorded.Some? && recorded.value.job == status.job && Displaces(recorded.value.status, status)
    then Some(recorded.value.(status := Some(status)))
    else None
  }

  /** A status is recorded exactly when the boundary is still at its job and has no
      ending yet, or when a stop meets an interruption. */
  lemma {:induction false} UpdatedExactly(recorded: Option<Boundary>, status: JobStatus)
    ensures Updated(recorded, status).Some? <==>
            && recorded.Some? && recorded.value.job == status.job
            && (recorded.value.status == None
                || (recorded.value.status.value.Error? && recorded.value.status.value.error == Interrupted && status.Stopped?))
  {
  }

  function Decoded(verdict: Verdict<Stored>): Option<Boundary> {
    if verdict.HasRecord() && verdict.record.Readable? then Some(verdict.record.boundary) else None
  }

  class BoundaryStore {
    const tenant: Tenant<Stored>
    var boundary: Option<Boundary>

    ghost predicate Valid()
      reads this, tenant
    {
      tenant.Valid()
    }

    constructor (tenant: Tenant<Stored>)
      requires tenant.Valid()
      ensures Valid() && this.tenant == tenant && boundary == None
    {
      this.tenant := tenant;
      boundary := None;
    }

    method Load(faults: seq<WriteResult>)
      requires Valid() && |faults| == |tenant.files|
      modifies this, tenant
      ensures Valid()
      ensures tenant.View() == LoadEffect(old(tenant.View()), tenant.owner, faults).0
      ensures boundary == Decoded(VerdictOn(old(tenant.files), tenant.owner.baseboard))
      ensures var verdict := VerdictOn(old(tenant.files), tenant.owner.baseboard);
        forall b :: boundary == Some(b) <==> verdict.HasRecord() && verdict.record == Readable(b)
    {
      var verdict := tenant.Load(faults);
      boundary := Decoded(verdict);
    }

    /** An ending for the job at the boundary. The copy in memory changes exactly
        when the store succeeds, and then equals the record stored. */
    method RecordStatus(status: JobStatus, faults: seq<WriteResult>)
      requires Valid() && |faults| == |tenant.files| && status.IsTerminal()
      modifies this, tenant
      ensures Valid()
      ensures old(boundary).None? || old(boundary).value.job != status.job ==>
                tenant.View() == old(tenant.View()) && boundary == old(boundary)
      ensures old(boundary).Some? && old(boundary).value.status.Some?
              && !(status.Stopped? && old(boundary).value.status.value.Error?
                   && old(boundary).value.status.value.error == Interrupted) ==>
                tenant.View() == old(tenant.View()) && boundary == old(boundary)
      ensures old(boundary).Some? && old(boundary).value.job == status.job
              && (old(boundary).value.status.None?
                  || (status.Stopped? && old(boundary).value.status.value.Error?
                      && old(boundary).value.status.value.error == Interrupted)) ==>
                var b := old(boundary).value.(status := Some(status));
                var (t, result) := StoreEffect(old(tenant.View()), tenant.owner, Readable(b), faults);
                tenant.View() == t && boundary == if result.Stored? then Some(b) else old(boundary)
    {
      var updated := Updated(boundary, status);
      if updated.None? {
        return;
      }
      var result := tenant.Store(Readable(updated.value), faults);
      if !result.Stored? {
        return;
      }
      boundary := updated;
    }

    /** Put `b` in every slot, and then in memory; its job may be launched only if
        that worked. */
    method Advance(b: Boundary, faults: seq<WriteResult>) returns (result: StoreResult)
      requires Valid() && |faults| == |tenant.files|
      modifies this, tenant
      ensures Valid()
      ensures (tenant.View(), result) == StoreEffect(old(tenant.View()), tenant.owner, Readable(b), faults)
      ensures boundary == if result.Stored? then Some(b) else old(boundary)
    {
      result := tenant.Store(Readable(b), faults);
      if result.Stored? {
        boundary := Some(b);
      }
    }
  }

  // ---- The launcher

  const LAUNCH_CHANNEL_CAPACITY := 16

  /** What waits in the queue: the boundary a job will be launched under, and the
      token that stops it. */
  datatype Launch = Launch(boundary: Boundary, token: nat)

  /** What the launcher has done: jobs spawned, jobs refused, and the boundary it
      last committed to. */
  datatype Launches = Launches(record: Record<Stored>, boundary: Option<Boundary>, spawned: seq<Launch>, refused: seq<JobId>)

  /** One turn of the launcher: the boundary first, then the job. */
  ghost function LaunchOne(s: Launches, owner: Owner, launch: Launch, faults: seq<WriteResult>): Launches
    requires |s.record.files| == |owner.claimed| == |faults|
  {
    var (t, result) := StoreEffect(s.record, owner, Readable(launch.boundary), faults);
    if result.Stored? then Launches(t, Some(launch.boundary), s.spawned + [launch], s.refused)
    else s.(record := t, refused := s.refused + [launch.boundary.job])
  }

  ghost function LaunchAll(s: Launches, owner: Owner, queue: seq<Launch>, faults: seq<seq<WriteResult>>): (r: Launches)
    requires |queue| == |faults| && |s.record.files| == |owner.claimed|
    requires forall i :: 0 <= i < |faults| ==> |faults[i]| == |owner.claimed|
    ensures |r.record.files| == |owner.claimed|
    decreases |queue|
  {
    if |queue| == 0 then s
    else LaunchAll(LaunchOne(s, owner, queue[0], faults[0]), owner, queue[1..], faults[1..])
  }

  class Executor {
    const store: BoundaryStore
    var accepting: bool
    var queue: seq<Launch>
    var stop: map<JobId, nat>
    var cancelled: set<nat>
    var nextToken: nat
    var spawned: seq<Launch>
    var refused: seq<JobId>

    /** The queue is within its bound, and every token in use is older than
        `nextToken`. */
    ghost predicate Valid()
      reads this, store, store.tenant
    {
      && store.Valid()
      && |queue| <= LAUNCH_CHANNEL_CAPACITY
      && (forall j :: j in stop ==> stop[j] < nextToken)
      && (forall i :: 0 <= i < |queue| ==> queue[i].token < nextToken)
    }

    constructor (store: BoundaryStore)
      requires store.Valid()
      ensures Valid() && this.store == store && accepting && queue == [] && stop == map[]
      ensures spawned == [] && refused == [] && cancelled == {}
    {
      this.store := store;
      accepting, queue, stop, cancelled := true, [], map[], {};
      nextToken, spawned, refused := 0, [], [];
    }

    /** Queue a job. A full queue refuses it with an error event, and a shut down
        executor ignores it. */
    method JobStart(boundary: Boundary)
      requires Valid()
      modifies this
      ensures Valid() && accepting == old(accepting) && cancelled == old(cancelled) && spawned == old(spawned)
      ensures !accepting ==> queue == old(queue) && stop == old(stop) && refused == old(refused)
      ensures accepting && |old(queue)| < LAUNCH_CHANNEL_CAPACITY ==>
                && queue == old(queue) + [Launch(boundary, old(nextToken))]
                && stop == old(stop)[boundary.job := old(nextToken)]
                && refused == old(refused)
      ensures accepting && |old(queue)| == LAUNCH_CHANNEL_CAPACITY ==>
                && queue == old(queue) && refused == old(refused) + [boundary.job]
                && stop == old(stop) - {boundary.job}
    {
      if !accepting {
        return;
      }
      var token := nextToken;
      nextToken := nextToken + 1;
      stop := stop[boundary.job := token];
      if |queue| < LAUNCH_CHANNEL_CAPACITY {
        queue := queue + [Launch(boundary, token)];
      } else {
        stop := stop - {boundary.job};
        refused := refused + [boundary.job];
      }
    }

    method JobStop(job: JobId)
      requires Valid()
      modifies this`stop, this`cancelled
      ensures Valid() && stop == old(stop) - {job}
      ensures cancelled == old(cancelled) + (if job in old(stop) then {old(stop)[job]} else {})
    {
      if job in stop {
        cancelled := cancelled + {stop[job]};
        stop := stop - {job};
      }
    }

    method JobStopped(job: JobId)
      requires Valid()
      modifies this`stop
      ensures Valid() && stop == old(stop) - {job}
    {
      stop := stop - {job};
    }

    ghost function View(): Launches
      reads this, store, store.tenant
    {
      Launches(store.tenant.View(), store.boundary, spawned, refused)
    }

    /** The launcher takes every queued job in turn, `faults[i]` being the slot
        writes of the i-th. */
    method Drain(faults: seq<seq<WriteResult>>)
      requires Valid() && |faults| == |queue|
      requires forall i :: 0 <= i < |faults| ==> |faults[i]| == |store.tenant.files|
      modifies this, store, store.tenant
      ensures Valid() && queue == [] && stop == old(stop) && cancelled == old(cancelled)
      ensures View() == LaunchAll(old(View()), store.tenant.owner, old(queue), faults)
    {
      ghost var owner := store.tenant.owner;
      var left := faults;
      while |queue| > 0
        invariant Valid() && |left| == |queue|
        invariant stop == old(stop) && cancelled == old(cancelled)
        invariant forall i :: 0 <= i < |left| ==> |left[i]| == |store.tenant.files|
        invariant |store.tenant.files| == |owner.claimed|
        invariant LaunchAll(View(), owner, queue, left) == LaunchAll(old(View()), owner, old(queue), faults)
        decreases |queue|
      {
        var launch := queue[0];
        queue := queue[1..];
        var result := store.Advance(launch.boundary, left[0]);
        left := left[1..];
        if !result.Stored? {
          refused := refused + [launch.boundary.job];
          continue;
        }
        spawned := spawned + [launch];
      }
    }
  }

  // ---- What one drained queue leaves behind

  /** The record in memory is the last spawned job's, the spawned jobs keep their
      queue order, and every queued job is either spawned or refused. */
  lemma {:induction false} LaunchAllCommitsLast(s: Launches, owner: Owner, queue: seq<Launch>, faults: seq<seq<WriteResult>>)
    requires |queue| == |faults| && |s.record.files| == |owner.claimed|
    requires forall i :: 0 <= i < |faults| ==> |faults[i]| == |owner.claimed|
    ensures var r := LaunchAll(s, owner, queue, faults);
      && s.spawned <= r.spawned && s.refused <= r.refused
      && |r.spawned| - |s.spawned| + |r.refused| - |s.refused| == |queue|
      && (r.boundary == if |r.spawned| == |s.spawned| then s.boundary
                        else Some(r.spawned[|r.spawned| - 1].boundary))
      && (forall i :: |s.spawned| <= i < |r.spawned| ==> r.spawned[i] in queue)
    decreases |queue|
  {
    if |queue| > 0 {
      var one := LaunchOne(s, owner, queue[0], faults[0]);
      LaunchAllCommitsLast(one, owner, queue[1..], faults[1..]);
      var r := LaunchAll(s, owner, queue, faults);
      forall i | |s.spawned| <= i < |r.spawned| ensures r.spawned[i] in queue {
        if i < |one.spawned| {
          assert r.spawned[i] == one.spawned[i] == queue[0];
        } else {
          assert r.spawned[i] in queue[1..];
        }
      }
    }
  }

  /** The launches that were spawned, and the jobs that were refused, under one
      answer for each place in the queue. */
  function Picked(queue: seq<Launch>, ok: seq<bool>): seq<Launch>
    requires |queue| == |ok|
  {
    if |queue| == 0 then [] else (if ok[0] then [queue[0]] else []) + Picked(queue[1..], ok[1..])
  }

  function Turned(queue: seq<Launch>, ok: seq<bool>): seq<JobId>
    requires |queue| == |ok|
  {
    if |queue| == 0 then [] else (if ok[0] then [] else [queue[0].boundary.job]) + Turned(queue[1..], ok[1..])
  }

  /** The answers are those of storing each boundary in turn. */
  ghost predicate Answers(record: Record<Stored>, owner: Owner, queue: seq<Launch>, faults: seq<seq<WriteResult>>, ok: seq<bool>)
    requires |queue| == |faults| == |ok| && |record.files| == |owner.claimed|
    requires forall i :: 0 <= i < |faults| ==> |faults[i]| == |owner.claimed|
    decreases |queue|
  {
    |queue| > 0 ==>
      var (after, result) := StoreEffect(record, owner, Readable(queue[0].boundary), faults[0]);
      (ok[0] <==> result == Stored) && Answers(after, owner, queue[1..], faults[1..], ok[1..])
  }

  lemma {:induction false} Shift<T>(done: seq<T>, more: seq<T>, rest: seq<T>)
    ensures done + more + rest == done + (more + rest)
  {
  }

  /** In queue order, each job is spawned under its own boundary or refused under its
      own ID; and a job is spawned exactly when its boundary was stored. */
  lemma {:induction false} LaunchAllInOrder(s: Launches, owner: Owner, queue: seq<Launch>, faults: seq<seq<WriteResult>>)
    returns (ok: seq<bool>)
    requires |queue| == |faults| && |s.record.files| == |owner.claimed|
    requires forall i :: 0 <= i < |faults| ==> |faults[i]| == |owner.claimed|
    ensures |ok| == |queue|
    ensures var r := LaunchAll(s, owner, queue, faults);
      r.spawned == s.spawned + Picked(queue, ok) && r.refused == s.refused + Turned(queue, ok)
    ensures Answers(s.record, owner, queue, faults, ok)
    decreases |queue|
  {
    ok := [];
    if |queue| == 0 {
      assert s.spawned + [] == s.spawned && s.refused + [] == s.refused;
    } else {
      var one := LaunchOne(s, owner, queue[0], faults[0]);
      var rest := LaunchAllInOrder(one, owner, queue[1..], faults[1..]);
      ok := [StoreEffect(s.record, owner, Readable(queue[0].boundary), faults[0]).1.Stored?] + rest;
      assert ok[1..] == rest;
      var picked, turned := Picked(queue[1..], rest), Turned(queue[1..], rest);
      Shift(s.spawned, if ok[0] then [queue[0]] else [], picked);
      Shift(s.refused, if ok[0] then [] else [queue[0].boundary.job], turned);
      assert s.spawned + [] == s.spawned && s.refused + [] == s.refused;
    }
  }
}
