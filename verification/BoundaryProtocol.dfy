/** The write-ahead protocol between the launcher and the durable boundary, over
every run of the locker underneath it: a sled that restarts never reads a
boundary that lies before a job it already spawned. */
module BoundaryProtocol {
  import opened Locker
  import opened Boundary
  import P = LockerProtocol
  import opened Wrappers

  type World = P.World<Stored>

  /** The store that holds the tenant lock, if any. */
  datatype Busy = Free | Advancing(boundary: Boundary) | Recording(boundary: Boundary)

  /** `launches` lists the jobs the launcher has taken up, over all lives;
      `names[v]` is the launch that the v-th store was about, and `memoryOf` the
      one that `memory` is about. None of the three exists in the program. */
  datatype Sled = Sled(
    world: World,
    queue: seq<Boundary>,
    memory: Option<Boundary>,
    busy: Busy,
    loaded: bool,
    spawned: set<nat>,
    launches: seq<JobId>,
    names: seq<nat>,
    memoryOf: nat,
    acknowledgedHere: bool)

  datatype Event =
    | Enqueue(boundary: Boundary)
    | BeginAdvance
    | BeginRecord(status: JobStatus)
    | Lock(event: P.Event<Stored>)

  ghost predicate Init(s: Sled) {
    && P.Init(s.world) && s.queue == [] && s.memory == None && s.busy == Free && !s.loaded
    && s.spawned == {} && s.launches == [] && s.names == [] && s.memoryOf == 0 && !s.acknowledgedHere
  }

  /** One load per life; nothing is stored until it has answered. */
  ghost predicate Enabled(s: Sled, e: Event) {
    match e
    case Enqueue(_) => |s.queue| < LAUNCH_CHANNEL_CAPACITY
    case BeginAdvance => s.loaded && |s.queue| > 0 && s.world.guard.Idle?
    case BeginRecord(status) =>
      s.loaded && s.world.guard.Idle? && status.IsTerminal() && Updated(s.memory, status).Some?
    case Lock(l) =>
      P.Shape(s.world) && P.Enabled(s.world, l) && !l.BeginStore? && (l.BeginLoad? ==> !s.loaded)
  }

  ghost function Store(s: Sled, b: Boundary, name: nat): Sled
    requires P.Shape(s.world) && s.world.guard.Idle?
  {
    s.(world := P.Next(s.world, P.BeginStore(Readable(b))), names := s.names + [name])
  }

  /** The launch that a record the locker may still return was about. */
  ghost function NameOf(s: Sled, record: Stored): nat {
    if |s.names| == |s.world.log| && P.NewEnough(s.world, record) then
      var v: nat :| P.Since(s.world) <= v < |s.world.log| && s.world.log[v] == record;
      s.names[v]
    else 0
  }

  /** What a locker step means above: a new life, an acknowledged store, or a
      verdict for the caller of a load. */
  datatype Report = Report(restarted: bool, acknowledged: bool, returned: Option<Verdict<Stored>>)

  ghost function ReportOf(w: World, l: P.Event<Stored>): Report
    requires P.Shape(w) && P.Enabled(w, l)
  {
    Report(l.Restart?, P.Acknowledges(w, l), P.Returned(w, l))
  }

  /** A store that is acknowledged updates memory, and spawns the job if it
      advanced the boundary; a load that returns sets memory. */
  ghost function React(s: Sled, x: World, r: Report): Sled {
    var moved := s.(world := x);
    if r.restarted then
      moved.(queue := [], memory := None, busy := Free, loaded := false, acknowledgedHere := false)
    else if r.acknowledged && s.busy.Advancing? && |s.launches| > 0 then
      moved.(memory := Some(s.busy.boundary), memoryOf := |s.launches| - 1, busy := Free,
             spawned := s.spawned + {|s.launches| - 1}, acknowledgedHere := true)
    else if r.acknowledged && s.busy.Recording? then
      moved.(memory := Some(s.busy.boundary), busy := Free, acknowledgedHere := true)
    else if s.world.guard.Storing? && !x.guard.Storing? then
      moved.(busy := Free)
    else match r.returned
      case None => moved
      case Some(verdict) =>
        moved.(memory := Decoded(verdict), loaded := true,
               memoryOf := if verdict.HasRecord() then NameOf(s, verdict.record) else 0)
  }

  ghost function Next(s: Sled, e: Event): Sled
    requires P.Shape(s.world) && Enabled(s, e)
  {
    match e
    case Enqueue(b) => s.(queue := s.queue + [b])
    case BeginAdvance =>
      var b := s.queue[0];
      Store(s, b, |s.launches|).(queue := s.queue[1..], launches := s.launches + [b.job], busy := Advancing(b))
    case BeginRecord(status) =>
      var b := Updated(s.memory, status).value;
      Store(s, b, s.memoryOf).(busy := Recording(b))
    case Lock(l) => React(s, P.Next(s.world, l), ReportOf(s.world, l))
  }

  /** A load that settles on a record saw one in a slot that was not rolled back. */
  ghost predicate Trustworthy(s: Sled, e: Event) {
    e.Lock? ==> P.Trustworthy(s.world, e.event)
  }

  // ---- The invariant

  /** Launch `name` is `job`, and every spawned job was launched no later. */
  ghost predicate Ahead(s: Sled, name: nat, job: JobId) {
    name < |s.launches| && s.launches[name] == job && forall p :: p in s.spawned ==> p <= name
  }

  /** How the recorded status of one commitment may differ later on. */
  ghost predicate Moves(old': Option<JobStatus>, new': Option<JobStatus>) {
    || new' == old'
    || (old'.None? && new'.Some? && new'.value.IsTerminal())
    || (old'.Some? && old'.value.Error? && old'.value.error.Interrupted? && new'.Some? && new'.value.Stopped?)
  }

  /** `b` is what became of `a`: the same commitment, with its status moved on, and
      if it moved, to one of its own job. */
  ghost predicate Became(a: Boundary, b: Boundary) {
    && b == a.(status := b.status) && Moves(a.status, b.status)
    && (b.status == a.status || (b.status.Some? && b.status.value.job == b.job))
  }

  ghost predicate Stores(s: Sled) {
    && |s.names| == |s.world.log|
    && (forall v :: 0 <= v < |s.names| ==> s.world.log[v].Readable?)
    && (forall v :: P.Since(s.world) <= v < |s.names| ==>
          Ahead(s, s.names[v], s.world.log[v].boundary.job))
    && (forall p :: p in s.spawned ==> p < |s.launches|)
  }

  ghost predicate Memory(s: Sled) {
    && (s.memory.Some? ==> Ahead(s, s.memoryOf, s.memory.value.job))
    && (s.acknowledgedHere ==>
          && s.loaded && 0 < s.world.acked <= |s.world.log|
          && s.memory.Some? && s.world.log[s.world.acked - 1] == Readable(s.memory.value))
    && (s.loaded ==> !s.world.guard.Loading? && !s.world.guard.Repairing?)
    && (!s.loaded ==> s.memory.None?)
  }

  ghost predicate Holding(s: Sled) {
    match s.busy
    case Free => !s.world.guard.Storing?
    case Advancing(b) =>
      && s.world.guard.Storing? && s.loaded && 0 < |s.world.log| == |s.names| && |s.launches| > 0
      && s.world.log[|s.world.log| - 1] == Readable(b) && s.names[|s.names| - 1] == |s.launches| - 1
      && s.launches[|s.launches| - 1] == b.job
      && (s.memory.Some? ==> s.memoryOf < |s.launches| - 1)
    case Recording(b) =>
      && s.world.guard.Storing? && s.loaded && 0 < |s.world.log| == |s.names| && s.memory.Some?
      && s.world.log[|s.world.log| - 1] == Readable(b) && s.names[|s.names| - 1] == s.memoryOf
      && Became(s.memory.value, b)
  }

  /** All that is said above the locker; of the locker it reads only the log,
      the acknowledgement and the guard. */
  ghost predicate Upper(s: Sled) {
    Stores(s) && Memory(s) && Holding(s)
  }

  ghost predicate Inv(s: Sled) {
    P.Inv(s.world) && Upper(s)
  }

  lemma {:induction false} InitHolds(s: Sled)
    requires Init(s)
    ensures Inv(s)
  {
    P.InitHolds(s.world);
  }

  // ---- Every event keeps the invariant

  lemma {:induction false} AppendKeeps(s: Sled, t: Sled, b: Boundary, name: nat)
    requires Stores(s) && s.launches <= t.launches && t.spawned == s.spawned
    requires t.world.log == s.world.log + [Readable(b)] && t.world.acked == s.world.acked
    requires t.names == s.names + [name] && Ahead(t, name, b.job)
    ensures Stores(t)
  {
    forall v | P.Since(t.world) <= v < |t.names| ensures Ahead(t, t.names[v], t.world.log[v].boundary.job) {
      if v < |s.names| {
        assert Ahead(s, s.names[v], s.world.log[v].boundary.job);
      }
    }
  }

  ghost function Begun(s: Sled, e: Event): Boundary
    requires Enabled(s, e) && (e.BeginAdvance? || e.BeginRecord?)
  {
    if e.BeginAdvance? then s.queue[0] else Updated(s.memory, e.status).value
  }

  ghost function BegunFor(s: Sled, e: Event): nat {
    if e.BeginAdvance? then |s.launches| else s.memoryOf
  }

  /** A store that begins is logged, unacknowledged, under the launch it is about. */
  lemma {:induction false} BeginLogs(s: Sled, e: Event)
    requires Inv(s) && Enabled(s, e) && (e.BeginAdvance? || e.BeginRecord?)
    ensures var t, b := Next(s, e), Begun(s, e);
      && P.Inv(t.world) && t.world.guard.Storing?
      && t.world.log == s.world.log + [Readable(b)] && t.world.acked == s.world.acked
      && t.names == s.names + [BegunFor(s, e)]
  {
    var begin := P.BeginStore(Readable(Begun(s, e)));
    P.StepKeeps(s.world, begin);
    P.LogMoves(s.world, begin);
  }

  lemma {:induction false} BeginKeeps(s: Sled, e: Event)
    requires Inv(s) && Enabled(s, e) && (e.BeginAdvance? || e.BeginRecord?)
    ensures Inv(Next(s, e))
  {
    var t := Next(s, e);
    BeginLogs(s, e);
    AppendKeeps(s, t, Begun(s, e), BegunFor(s, e));
    assert Memory(t);
    assert Holding(t);
  }

  /** Whatever record a load returns is about a launch that no spawned job comes
      after. */
  lemma {:induction false} LoadedIsAhead(s: Sled, l: P.Event<Stored>)
    requires Inv(s) && Enabled(s, Lock(l)) && P.Trustworthy(s.world, l)
    requires var r := P.Returned(s.world, l); r.Some? && r.value.HasRecord()
    ensures var record := P.Returned(s.world, l).value.record;
      record.Readable? && Ahead(s, NameOf(s, record), record.boundary.job)
  {
    if l.Decide? {
      P.DecisionIsNewEnough(s.world);
    }
  }

  /** What the sled may count on when the locker has moved to `x`. */
  ghost predicate Told(s: Sled, x: World, r: Report) {
    && x.log == s.world.log
    && x.acked == (if r.acknowledged then |x.log| else s.world.acked)
    && (r.restarted ==> !r.acknowledged && x.guard.Idle?)
    && (r.acknowledged ==> x.guard.Idle? && s.world.guard.Storing?)
    && (x.guard.Storing? ==> s.world.guard.Storing?)
    && (s.loaded ==> !x.guard.Loading? && !x.guard.Repairing?)
    && (r.returned.Some? ==> x.guard.Idle? && (s.world.guard.Loading? || s.world.guard.Repairing?))
  }

  /** A record that a load hands up is about a launch that no spawned job follows. */
  ghost predicate Safe(s: Sled, r: Report) {
    r.returned.Some? && r.returned.value.HasRecord() ==>
      var record := r.returned.value.record;
      record.Readable? && Ahead(s, NameOf(s, record), record.boundary.job)
  }

  lemma {:induction false} ReactKeepsStores(s: Sled, x: World, r: Report)
    requires Upper(s) && Told(s, x, r)
    ensures Stores(React(s, x, r))
  {
  }

  lemma {:induction false} ReactKeepsMemory(s: Sled, x: World, r: Report)
    requires Upper(s) && Told(s, x, r) && Safe(s, r)
    ensures Memory(React(s, x, r))
  {
  }

  lemma {:induction false} ReactKeepsHolding(s: Sled, x: World, r: Report)
    requires Upper(s) && Told(s, x, r)
    ensures Holding(React(s, x, r))
  {
  }

  lemma {:induction false} LockTells(s: Sled, l: P.Event<Stored>)
    requires Inv(s) && Enabled(s, Lock(l)) && P.Trustworthy(s.world, l)
    ensures Told(s, P.Next(s.world, l), ReportOf(s.world, l)) && Safe(s, ReportOf(s.world, l))
  {
    P.LogMoves(s.world, l);
    P.GuardMoves(s.world, l);
    var r := ReportOf(s.world, l);
    if r.returned.Some? && r.returned.value.HasRecord() {
      LoadedIsAhead(s, l);
    }
  }

  lemma {:induction false} LockKeeps(s: Sled, l: P.Event<Stored>)
    requires Inv(s) && Enabled(s, Lock(l)) && P.Trustworthy(s.world, l)
    ensures Inv(Next(s, Lock(l)))
  {
    P.StepKeeps(s.world, l);
    LockTells(s, l);
    var x, r := P.Next(s.world, l), ReportOf(s.world, l);
    ReactKeepsStores(s, x, r);
    ReactKeepsMemory(s, x, r);
    ReactKeepsHolding(s, x, r);
  }

  lemma {:induction false} StepKeeps(s: Sled, e: Event)
    requires Inv(s) && Enabled(s, e) && Trustworthy(s, e)
    ensures Inv(Next(s, e))
  {
    match e {
      case Enqueue(_) =>
      case BeginAdvance => BeginKeeps(s, e);
      case BeginRecord(_) => BeginKeeps(s, e);
      case Lock(l) => LockKeeps(s, l);
    }
  }

  // ---- Runs

  ghost predicate Follows(s: Sled, es: seq<Event>)
    decreases |es|
  {
    P.Shape(s.world) && (|es| > 0 ==> Enabled(s, es[0]) && Follows(Next(s, es[0]), es[1..]))
  }

  ghost function After(s: Sled, es: seq<Event>): (t: Sled)
    requires Follows(s, es)
    ensures P.Shape(t.world)
    decreases |es|
  {
    if |es| == 0 then s else After(Next(s, es[0]), es[1..])
  }

  /** Every load in the run is trustworthy. */
  ghost predicate Trusted(s: Sled, es: seq<Event>)
    requires Follows(s, es)
    decreases |es|
  {
    |es| > 0 ==> Trustworthy(s, es[0]) && Trusted(Next(s, es[0]), es[1..])
  }

  lemma {:induction false} RunKeeps(s: Sled, es: seq<Event>)
    requires Inv(s) && Follows(s, es) && Trusted(s, es)
    ensures Inv(After(s, es))
    decreases |es|
  {
    if |es| > 0 {
      StepKeeps(s, es[0]);
      RunKeeps(Next(s, es[0]), es[1..]);
    }
  }

  /** Write-ahead: after any run of launches, endings, failed stores, crashes and
      slot faults, a boundary that a load reads names a launched job that no job
      spawned so far was launched after. */
  lemma {:induction false} WriteAhead(s: Sled, es: seq<Event>, l: P.Event<Stored>)
    requires Init(s) && Follows(s, es) && Trusted(s, es)
    requires Enabled(After(s, es), Lock(l)) && P.Trustworthy(After(s, es).world, l)
    ensures var t := After(s, es);
      var returned := P.Returned(t.world, l);
      returned.Some? && returned.value.HasRecord() ==>
        returned.value.record.Readable?
        && exists name :: Ahead(t, name, returned.value.record.boundary.job)
  {
    InitHolds(s);
    RunKeeps(s, es);
    var t := After(s, es);
    var returned := P.Returned(t.world, l);
    if returned.Some? && returned.value.HasRecord() {
      LoadedIsAhead(t, l);
    }
  }

  /** Once a store has been acknowledged in this life, the copy in memory is the
      last acknowledged record; and it never falls behind a spawned job. */
  lemma {:induction false} MemoryIsAcknowledged(s: Sled, es: seq<Event>)
    requires Init(s) && Follows(s, es) && Trusted(s, es)
    ensures var t := After(s, es);
      && (t.acknowledgedHere ==>
            && 0 < t.world.acked <= |t.world.log| && t.memory.Some?
            && t.world.log[t.world.acked - 1] == Readable(t.memory.value))
      && (t.memory.Some? ==> exists name :: Ahead(t, name, t.memory.value.job))
  {
    InitHolds(s);
    RunKeeps(s, es);
    var t := After(s, es);
    if t.memory.Some? {
      assert Ahead(t, t.memoryOf, t.memory.value.job);
    }
  }

  /** A job is spawned by one event only, the acknowledgement of its own
      boundary, and is in memory from then on. */
  lemma {:induction false} SpawnNeedsAcknowledgement(s: Sled, e: Event)
    requires Inv(s) && Enabled(s, e) && Next(s, e).spawned != s.spawned
    ensures e.Lock? && P.Acknowledges(s.world, e.event) && s.busy.Advancing?
    ensures Next(s, e).memory == Some(s.busy.boundary)
    ensures Next(s, e).world.acked == |s.world.log|
         && s.world.log[|s.world.log| - 1] == Readable(s.busy.boundary)
  {
    if e.Lock? {
      P.LogMoves(s.world, e.event);
    }
  }

  // ---- The status of one commitment

  /** A boundary about launch `name` is no older than the acknowledged one, and if
      it is about the same launch it is what became of it. */
  ghost predicate Succeeds(s: Sled, name: nat, b: Boundary) {
    0 < s.world.acked <= |s.world.log| && |s.names| == |s.world.log| && s.world.log[s.world.acked - 1].Readable? ==>
      && s.names[s.world.acked - 1] <= name
      && (name == s.names[s.world.acked - 1] ==> Became(s.world.log[s.world.acked - 1].boundary, b))
  }

  /** Every store from the acknowledged one on succeeds it, and so does memory. */
  ghost predicate Kept(s: Sled) {
    && (forall v :: P.Since(s.world) <= v < |s.names| && v < |s.world.log| && s.world.log[v].Readable? ==>
          Succeeds(s, s.names[v], s.world.log[v].boundary))
    && (s.memory.Some? ==> Succeeds(s, s.memoryOf, s.memory.value))
  }

  lemma {:induction false} BecameIsTransitive(a: Boundary, b: Boundary, c: Boundary)
    requires Became(a, b) && Became(b, c)
    ensures Became(a, c)
  {
  }

  lemma {:induction false} BegunSucceeds(s: Sled, e: Event)
    requires Inv(s) && Kept(s) && Enabled(s, e) && (e.BeginAdvance? || e.BeginRecord?)
    ensures Succeeds(s, BegunFor(s, e), Begun(s, e))
  {
    if s.world.acked > 0 {
      var v := s.world.acked - 1;
      assert Ahead(s, s.names[v], s.world.log[v].boundary.job);
      if e.BeginRecord? && s.memoryOf == s.names[v] {
        BecameIsTransitive(s.world.log[v].boundary, s.memory.value, Begun(s, e));
      }
    }
  }

  lemma {:induction false} BeginKept(s: Sled, e: Event)
    requires Inv(s) && Kept(s) && Enabled(s, e) && (e.BeginAdvance? || e.BeginRecord?)
    ensures Kept(Next(s, e))
  {
    BegunSucceeds(s, e);
    BeginLogs(s, e);
    AppendSucceeds(s, Next(s, e), Begun(s, e), BegunFor(s, e));
  }

  lemma {:induction false} AppendSucceeds(s: Sled, t: Sled, b: Boundary, name: nat)
    requires Kept(s) && |s.names| == |s.world.log| && s.world.acked <= |s.world.log| && Succeeds(s, name, b)
    requires t.world.log == s.world.log + [Readable(b)] && t.world.acked == s.world.acked
    requires t.names == s.names + [name] && t.memory == s.memory && t.memoryOf == s.memoryOf
    ensures Kept(t)
  {
    assert forall n, c :: Succeeds(s, n, c) ==> Succeeds(t, n, c);
    forall v | P.Since(t.world) <= v < |t.names| && v < |t.world.log| && t.world.log[v].Readable?
      ensures Succeeds(t, t.names[v], t.world.log[v].boundary)
    {
      if v < |s.names| {
        assert Succeeds(s, s.names[v], s.world.log[v].boundary);
      }
    }
  }

  /** What a load hands up succeeds the acknowledged record. */
  lemma {:induction false} LoadedSucceeds(s: Sled, l: P.Event<Stored>)
    requires Inv(s) && Kept(s) && Enabled(s, Lock(l)) && P.Trustworthy(s.world, l)
    requires var r := P.Returned(s.world, l); r.Some? && r.value.HasRecord()
    ensures var record := P.Returned(s.world, l).value.record;
      record.Readable? && Succeeds(s, NameOf(s, record), record.boundary)
  {
    if l.Decide? {
      P.DecisionIsNewEnough(s.world);
    }
  }

  /** Without an acknowledgement the same things succeed. */
  lemma {:induction false} SameSucceeds(s: Sled, t: Sled)
    requires t.names == s.names && t.world.log == s.world.log && t.world.acked == s.world.acked && Kept(s)
    requires t.memory.Some? ==> Succeeds(s, t.memoryOf, t.memory.value)
    ensures Kept(t)
  {
    assert forall name, b :: Succeeds(s, name, b) ==> Succeeds(t, name, b);
  }

  /** An acknowledgement makes the newest store the one to succeed. */
  lemma {:induction false} NewSucceeds(t: Sled)
    requires Stores(t) && t.world.acked == |t.world.log| > 0
    requires t.memory.Some? ==>
      t.memoryOf == t.names[|t.names| - 1] && t.world.log[|t.names| - 1] == Readable(t.memory.value)
    ensures Kept(t)
  {
  }

  lemma {:induction false} ReactKept(s: Sled, x: World, r: Report)
    requires Upper(s) && Kept(s) && Told(s, x, r) && Safe(s, r)
    requires r.returned.Some? && r.returned.value.HasRecord() ==>
      var record := r.returned.value.record;
      record.Readable? && Succeeds(s, NameOf(s, record), record.boundary)
    ensures Kept(React(s, x, r))
  {
    if r.acknowledged {
      ReactKeepsStores(s, x, r);
      NewSucceeds(React(s, x, r));
    } else {
      SameSucceeds(s, React(s, x, r));
    }
  }

  lemma {:induction false} StepKept(s: Sled, e: Event)
    requires Inv(s) && Kept(s) && Enabled(s, e) && Trustworthy(s, e)
    ensures Kept(Next(s, e))
  {
    match e {
      case Enqueue(_) => SameSucceeds(s, Next(s, e));
      case BeginAdvance => BeginKept(s, e);
      case BeginRecord(_) => BeginKept(s, e);
      case Lock(l) =>
        LockTells(s, l);
        var r := ReportOf(s.world, l);
        if r.returned.Some? && r.returned.value.HasRecord() {
          LoadedSucceeds(s, l);
        }
        ReactKept(s, P.Next(s.world, l), r);
    }
  }

  lemma {:induction false} InitKept(s: Sled)
    requires Init(s)
    ensures Kept(s)
  {
  }

  /** The last acknowledged record, for a caller who was told of one. */
  ghost function Acknowledged(s: Sled): Boundary
    requires Stores(s) && 0 < s.world.acked <= |s.world.log|
  {
    s.world.log[s.world.acked - 1].boundary
  }

  ghost function AcknowledgedLaunch(s: Sled): nat
    requires Stores(s) && 0 < s.world.acked <= |s.world.log|
  {
    s.names[s.world.acked - 1]
  }

  /** The log and the launches it names only grow, and an acknowledgement is for
      what is logged already. */
  lemma {:induction false} LogGrows(s: Sled, e: Event)
    requires Inv(s) && Enabled(s, e) && Trustworthy(s, e)
    ensures var t := Next(s, e);
      && s.world.log <= t.world.log && s.names <= t.names
      && (t.world.acked == s.world.acked || t.world.acked == |s.world.log|)
  {
    match e {
      case Enqueue(_) =>
      case BeginAdvance => BeginLogs(s, e);
      case BeginRecord(_) => BeginLogs(s, e);
      case Lock(l) => LockTells(s, l);
    }
  }

  lemma {:induction false} AcknowledgedStep(s: Sled, e: Event)
    requires Inv(s) && Kept(s) && Enabled(s, e) && Trustworthy(s, e) && s.world.acked > 0
    ensures var t := Next(s, e);
      Stores(t) && 0 < t.world.acked <= |t.world.log| && Succeeds(s, AcknowledgedLaunch(t), Acknowledged(t))
  {
    StepKeeps(s, e);
    LogGrows(s, e);
    var t := Next(s, e);
    var v := t.world.acked - 1;
    assert s.world.acked - 1 <= v < |s.names| && t.names[v] == s.names[v] && t.world.log[v] == s.world.log[v];
  }

  lemma {:induction false} SucceedsOnward(s: Sled, t: Sled, name: nat, b: Boundary)
    requires Stores(s) && 0 < s.world.acked <= |s.world.log| && Stores(t) && 0 < t.world.acked <= |t.world.log|
    requires Succeeds(s, AcknowledgedLaunch(t), Acknowledged(t)) && Succeeds(t, name, b)
    ensures Succeeds(s, name, b)
  {
    if name == AcknowledgedLaunch(s) {
      BecameIsTransitive(Acknowledged(s), Acknowledged(t), b);
    }
  }

  /** Across any run, with any crashes in it: the acknowledged record only moves to
      later launches, and while it stays with one its status only goes from none to
      an ending, or from an interruption to a stop. */
  lemma {:induction false} StatusAcrossLives(s: Sled, es: seq<Event>)
    requires Inv(s) && Kept(s) && Follows(s, es) && Trusted(s, es) && s.world.acked > 0
    ensures var t := After(s, es);
      && Inv(t) && Kept(t) && 0 < t.world.acked <= |t.world.log|
      && Succeeds(s, AcknowledgedLaunch(t), Acknowledged(t))
    decreases |es|
  {
    if |es| > 0 {
      var m := Next(s, es[0]);
      AcknowledgedStep(s, es[0]);
      StepKeeps(s, es[0]);
      StepKept(s, es[0]);
      StatusAcrossLives(m, es[1..]);
      var t := After(m, es[1..]);
      SucceedsOnward(s, m, AcknowledgedLaunch(t), Acknowledged(t));
    }
  }

  /** What a load reads after any run, crashes included, is about a launch that no
      spawned job follows and no earlier than the one acknowledged when the run
      began; if it is that one, its status has only moved on. */
  lemma {:induction false} LoadedStatusMovesOn(s: Sled, es: seq<Event>, l: P.Event<Stored>)
    requires Inv(s) && Kept(s) && Follows(s, es) && Trusted(s, es) && s.world.acked > 0
    requires Enabled(After(s, es), Lock(l)) && P.Trustworthy(After(s, es).world, l)
    ensures var t := After(s, es);
      var returned := P.Returned(t.world, l);
      returned.Some? && returned.value.HasRecord() ==>
        && returned.value.record.Readable?
        && exists name :: Ahead(t, name, returned.value.record.boundary.job)
                          && Succeeds(s, name, returned.value.record.boundary)
  {
    StatusAcrossLives(s, es);
    var t := After(s, es);
    var returned := P.Returned(t.world, l);
    if returned.Some? && returned.value.HasRecord() {
      LoadedIsAhead(t, l);
      LoadedSucceeds(t, l);
      SucceedsOnward(s, t, NameOf(t, returned.value.record), returned.value.record.boundary);
    }
  }

  /** Every state a run reaches keeps both parts of the invariant. */
  lemma {:induction false} Reachable(s: Sled, es: seq<Event>)
    requires Inv(s) && Kept(s) && Follows(s, es) && Trusted(s, es)
    ensures Inv(After(s, es)) && Kept(After(s, es))
    decreases |es|
  {
    if |es| > 0 {
      StepKeeps(s, es[0]);
      StepKept(s, es[0]);
      Reachable(Next(s, es[0]), es[1..]);
    }
  }

  lemma {:induction false} StatusStep(s: Sled, e: Event)
    requires Inv(s) && Enabled(s, e) && s.memory.Some?
    requires !(e.Lock? && e.event.Restart?)
    ensures var t := Next(s, e);
      && t.memory.Some? && s.memoryOf <= t.memoryOf
      && (t.memoryOf == s.memoryOf ==> Became(s.memory.value, t.memory.value))
  {
    if e.Lock? {
      P.GuardMoves(s.world, e.event);
    }
  }

  /** Within one life the boundary only moves to later launches, and while it
      stays with one its status only goes from none to an ending, or from an
      interruption to a stop. */
  lemma {:induction false} StatusOverLife(s: Sled, es: seq<Event>)
    requires Inv(s) && Follows(s, es) && Trusted(s, es) && s.memory.Some?
    requires forall i :: 0 <= i < |es| ==> !(es[i].Lock? && es[i].event.Restart?)
    ensures var t := After(s, es);
      && t.memory.Some? && s.memoryOf <= t.memoryOf
      && (t.memoryOf == s.memoryOf ==> Became(s.memory.value, t.memory.value))
    decreases |es|
  {
    if |es| > 0 {
      StatusStep(s, es[0]);
      StepKeeps(s, es[0]);
      StatusOverLife(Next(s, es[0]), es[1..]);
    }
  }

  // ---- Whose status it is

  /** A recorded ending is the ending of the boundary's own job. */
  ghost predicate OwnEnding(b: Boundary) {
    b.status.Some? ==> b.status.value.job == b.job
  }

  ghost predicate OwnEndings(s: Sled) {
    && (forall i :: 0 <= i < |s.queue| ==> OwnEnding(s.queue[i]))
    && (forall v :: 0 <= v < |s.world.log| && s.world.log[v].Readable? ==> OwnEnding(s.world.log[v].boundary))
    && (s.memory.Some? ==> OwnEnding(s.memory.value))
  }

  lemma {:induction false} ReactOwnEndings(s: Sled, x: World, r: Report)
    requires Upper(s) && OwnEndings(s) && Told(s, x, r)
    requires r.returned.Some? && r.returned.value.HasRecord() ==> P.NewEnough(s.world, r.returned.value.record)
    ensures OwnEndings(React(s, x, r))
  {
    var t := React(s, x, r);
    assert t.world.log == s.world.log && t.queue == (if r.restarted then [] else s.queue);
  }

  lemma {:induction false} StepOwnEndings(s: Sled, e: Event)
    requires Inv(s) && OwnEndings(s) && Enabled(s, e) && Trustworthy(s, e)
    requires e.Enqueue? ==> OwnEnding(e.boundary)
    ensures OwnEndings(Next(s, e))
  {
    match e {
      case Enqueue(_) =>
      case BeginAdvance => BeginLogs(s, e);
      case BeginRecord(status) =>
        BeginLogs(s, e);
        UpdatedExactly(s.memory, status);
      case Lock(l) =>
        LockTells(s, l);
        if l.Decide? {
          P.DecisionIsNewEnough(s.world);
        }
        ReactOwnEndings(s, P.Next(s.world, l), ReportOf(s.world, l));
    }
  }

  /** Over every run whose jobs are queued without an ending, or with their own, no
      boundary that is stored or remembered ever carries another job's ending. */
  lemma {:induction false} EndingsAreTheirOwn(s: Sled, es: seq<Event>)
    requires Inv(s) && OwnEndings(s) && Follows(s, es) && Trusted(s, es)
    requires forall i :: 0 <= i < |es| && es[i].Enqueue? ==> OwnEnding(es[i].boundary)
    ensures OwnEndings(After(s, es))
    decreases |es|
  {
    if |es| > 0 {
      StepKeeps(s, es[0]);
      StepOwnEndings(s, es[0]);
      EndingsAreTheirOwn(Next(s, es[0]), es[1..]);
    }
  }
}
