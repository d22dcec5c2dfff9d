/** The calls of `BoundaryStore` and the turns of the launcher, with nobody else at
work, are runs of the boundary protocol: what the classes compute is what the
protocol's theorems speak of. */
module BoundaryRuns {
  import opened Locker
  import opened Boundary
  import opened BoundaryProtocol
  import P = LockerProtocol
  import opened Wrappers

  ghost function Locks(ls: seq<P.Event<Stored>>): seq<Event> {
    seq(|ls|, i requires 0 <= i < |ls| => Lock(ls[i]))
  }

  ghost predicate Reaches(s: Sled, es: seq<Event>, t: Sled) {
    Follows(s, es) && After(s, es) == t
  }

  lemma {:induction false} Concat(s: Sled, es: seq<Event>, t: Sled, fs: seq<Event>)
    requires Reaches(s, es, t) && Follows(t, fs)
    ensures Reaches(s, es + fs, After(t, fs))
    decreases |es|
  {
    var all := es + fs;
    if |es| == 0 {
      assert all == fs;
    } else {
      assert all[0] == es[0] && all[1..] == es[1..] + fs;
      Concat(Next(s, es[0]), es[1..], t, fs);
      assert Reaches(Next(s, all[0]), all[1..], After(t, fs));
    }
  }

  // ---- Steps of writers, seen from above

  lemma {:induction false} WritingStep(w: World, l: P.Event<Stored>)
    requires P.Shape(w) && P.Enabled(w, l) && P.Writing([l])
    ensures var x := P.Next(w, l);
      && P.Shape(x) && x.log == w.log && (x.guard == w.guard || x.guard.Idle?)
      && x.acked == (if P.Acknowledges(w, l) then w.guard.entry + 1 else w.acked)
      && (P.Acknowledges(w, l) ==> x.guard.Idle?)
      && P.Returned(w, l) == (if w.guard.Repairing? && x.guard.Idle? then Some(w.guard.verdict) else None)
  {
    assert [l][0] == l;
  }

  lemma {:induction false} IdleLifts(s: Sled, ls: seq<P.Event<Stored>>)
    requires s.world.guard.Idle? && P.Follows(s.world, ls) && P.Writing(ls)
    ensures var x := P.After(s.world, ls);
      x.guard.Idle? && x.acked == s.world.acked && x.log == s.world.log && Reaches(s, Locks(ls), s.(world := x))
    decreases |ls|
  {
    if |ls| > 0 {
      var l := ls[0];
      assert P.Writing([l]);
      WritingStep(s.world, l);
      var m := Next(s, Lock(l));
      assert m == s.(world := P.Next(s.world, l));
      IdleLifts(m, ls[1..]);
      Join(s, ls, s.(world := P.After(s.world, ls)));
    }
  }

  lemma {:induction false} Join(s: Sled, ls: seq<P.Event<Stored>>, t: Sled)
    requires |ls| > 0 && P.Shape(s.world) && Enabled(s, Lock(ls[0]))
    requires Reaches(Next(s, Lock(ls[0])), Locks(ls[1..]), t)
    ensures Reaches(s, Locks(ls), t)
  {
    assert Locks(ls)[0] == Lock(ls[0]) && Locks(ls)[1..] == Locks(ls[1..]);
  }

  /** What the sled makes of the end of its store. */
  ghost function Told(s: Sled, x: World): Sled {
    if x.acked < |x.log| then s.(world := x, busy := Free)
    else if s.busy.Advancing? && |s.launches| > 0 then
      s.(world := x, memory := Some(s.busy.boundary), memoryOf := |s.launches| - 1, busy := Free,
         spawned := s.spawned + {|s.launches| - 1}, acknowledgedHere := true)
    else if s.busy.Recording? then
      s.(world := x, memory := Some(s.busy.boundary), busy := Free, acknowledgedHere := true)
    else s.(world := x, busy := Free)
  }

  /** The newest store is in flight and unacknowledged, and the sled knows which. */
  ghost predicate InFlight(s: Sled) {
    && s.world.guard.Storing? && s.world.guard.entry + 1 == |s.world.log| && s.world.acked < |s.world.log|
    && (s.busy.Advancing? ==> |s.launches| > 0)
  }

  lemma {:induction false} StepTells(s: Sled, l: P.Event<Stored>)
    requires P.Shape(s.world) && InFlight(s) && P.Enabled(s.world, l) && P.Writing([l])
    ensures Enabled(s, Lock(l))
    ensures var x := P.Next(s.world, l);
      Next(s, Lock(l)) == if x.guard.Idle? then Told(s, x) else s.(world := x)
  {
    WritingStep(s.world, l);
    assert [l][0] == l;
  }

  /** The rest of the writers' steps, after the store has its answer or before. */
  lemma {:induction false} RestLifts(s: Sled, m: Sled, ls: seq<P.Event<Stored>>)
    requires InFlight(s) && P.Follows(m.world, ls) && P.Writing(ls) && P.After(m.world, ls).guard.Idle?
    requires m.world.log == s.world.log
    requires if m.world.guard.Idle? then m == Told(s, m.world)
             else m == s.(world := m.world) && m.world.guard == s.world.guard && m.world.acked == s.world.acked
    ensures Reaches(m, Locks(ls), Told(s, P.After(m.world, ls)))
    decreases |ls|, 1
  {
    var x := P.After(m.world, ls);
    if m.world.guard.Idle? {
      IdleLifts(m, ls);
      ToldOnce(s, m.world, x);
    } else {
      WritingLifts(m, ls);
      assert Told(m, x) == Told(s, x);
    }
  }

  lemma {:induction false} WritingLifts(s: Sled, ls: seq<P.Event<Stored>>)
    requires InFlight(s) && P.Follows(s.world, ls) && P.Writing(ls) && P.After(s.world, ls).guard.Idle?
    ensures Reaches(s, Locks(ls), Told(s, P.After(s.world, ls)))
    decreases |ls|, 0
  {
    assert P.Writing([ls[0]]);
    WritingStep(s.world, ls[0]);
    StepTells(s, ls[0]);
    RestLifts(s, Next(s, Lock(ls[0])), ls[1..]);
    Join(s, ls, Told(s, P.After(s.world, ls)));
  }

  lemma {:induction false} ToldOnce(s: Sled, x: World, y: World)
    requires y.acked == x.acked && y.log == x.log
    ensures Told(s, x).(world := y) == Told(s, y)
  {
  }

  // ---- Stores

  /** The sled is loaded and idle, and acts for `owner`. */
  ghost predicate Ready(s: Sled, owner: Owner, faults: seq<WriteResult>) {
    && P.ActsAs(s.world, owner, faults) && |s.world.files| > 0
    && s.loaded && s.busy.Free? && s.world.guard.Idle? && s.world.commit.NoCommit?
    && s.world.committed <= s.world.reserved && s.world.acked <= |s.world.log|
  }

  /** A store begun for `b` and left to finish ends as `StoreEffect` says, and
      reaches memory exactly when it succeeded. */
  lemma {:induction false} StoreRuns(s: Sled, e: Event, owner: Owner, faults: seq<WriteResult>)
    returns (es: seq<Event>, t: Sled)
    requires Ready(s, owner, faults) && Enabled(s, e) && (e.BeginAdvance? || e.BeginRecord?)
    ensures Reaches(s, es, t) && Ready(t, owner, faults)
    ensures var (r, result) := StoreEffect(P.View(s.world), owner, Readable(Begun(s, e)), faults);
      && P.View(t.world) == r
      && t.memory == (if result.Stored? then Some(Begun(s, e)) else s.memory)
      && t.spawned == (if result.Stored? && e.BeginAdvance? then s.spawned + {|s.launches|} else s.spawned)
      && t.queue == (if e.BeginAdvance? then s.queue[1..] else s.queue)
      && t.launches == (if e.BeginAdvance? then s.launches + [Begun(s, e).job] else s.launches)
  {
    var begun := Next(s, e);
    var rest, x := P.WriterIsARun(begun.world, begun.world.reserved, owner, faults);
    WritingLifts(begun, rest);
    es, t := [e] + Locks(rest), Told(begun, x);
    assert es[0] == e && es[1..] == Locks(rest);
  }

  /** `BoundaryStore.RecordStatus`, when the status changes the record. */
  lemma {:induction false} RecordIsARun(s: Sled, status: JobStatus, owner: Owner, faults: seq<WriteResult>)
    returns (es: seq<Event>, t: Sled)
    requires Ready(s, owner, faults) && status.IsTerminal() && Updated(s.memory, status).Some?
    ensures Reaches(s, es, t) && Ready(t, owner, faults)
    ensures var updated := Updated(s.memory, status);
      var (r, result) := StoreEffect(P.View(s.world), owner, Readable(updated.value), faults);
      P.View(t.world) == r && t.memory == if result.Stored? then updated else s.memory
  {
    es, t := StoreRuns(s, BeginRecord(status), owner, faults);
  }

  /** One turn of the launcher: what `LaunchOne` does to the record, the boundary
      and the spawned jobs is what the protocol does. */
  lemma {:induction false} LaunchIsARun(s: Sled, before: Launches, launch: Launch, owner: Owner, faults: seq<WriteResult>)
    returns (es: seq<Event>, t: Sled)
    requires Ready(s, owner, faults) && |s.queue| > 0 && s.queue[0] == launch.boundary
    requires before.record == P.View(s.world) && before.boundary == s.memory
    requires forall p <- s.spawned :: p < |s.launches|
    ensures Reaches(s, es, t) && Ready(t, owner, faults) && t.queue == s.queue[1..]
    ensures forall p <- t.spawned :: p < |t.launches|
    ensures var after := LaunchOne(before, owner, launch, faults);
      && after.record == P.View(t.world) && after.boundary == t.memory
      && |t.spawned| - |s.spawned| == |after.spawned| - |before.spawned|
  {
    es, t := StoreRuns(s, BeginAdvance, owner, faults);
    assert |s.launches| !in s.spawned;
  }

  /** `Executor.Drain` is a run of the protocol. */
  lemma {:induction false} DrainIsARun(s: Sled, before: Launches, queue: seq<Launch>, owner: Owner, faults: seq<seq<WriteResult>>)
    returns (es: seq<Event>, t: Sled)
    requires |faults| == |queue| == |s.queue| && forall i :: 0 <= i < |queue| ==> s.queue[i] == queue[i].boundary
    requires forall i :: 0 <= i < |faults| ==> |faults[i]| == |owner.claimed|
    requires Ready(s, owner, seq(|owner.claimed|, _ => Written))
    requires before.record == P.View(s.world) && before.boundary == s.memory
    requires forall p <- s.spawned :: p < |s.launches|
    ensures Reaches(s, es, t) && t.queue == []
    ensures var after := LaunchAll(before, owner, queue, faults);
      && after.record == P.View(t.world) && after.boundary == t.memory
      && |t.spawned| - |s.spawned| == |after.spawned| - |before.spawned|
    decreases |queue|
  {
    es, t := [], s;
    if |queue| > 0 {
      var m;
      es, m := LaunchIsARun(s, before, queue[0], owner, faults[0]);
      var one := LaunchOne(before, owner, queue[0], faults[0]);
      var rest;
      rest, t := DrainIsARun(m, one, queue[1..], owner, faults[1..]);
      Concat(s, es, m, rest);
      es := es + rest;
    }
  }

  // ---- The load at startup

  lemma {:induction false} LookLifts(s: Sled, ls: seq<P.Event<Stored>>)
    requires !s.loaded && !s.world.guard.Storing? && P.Follows(s.world, ls)
    requires forall i :: 0 <= i < |ls| ==> ls[i].BeginLoad? || ls[i].ReadSlot?
    ensures Reaches(s, Locks(ls), s.(world := P.After(s.world, ls)))
    decreases |ls|
  {
    if |ls| > 0 {
      var m := Next(s, Lock(ls[0]));
      assert m == s.(world := P.Next(s.world, ls[0]));
      LookLifts(m, ls[1..]);
      Join(s, ls, s.(world := P.After(s.world, ls)));
    }
  }

  /** A load that has decided and is repairing answers when its repair ends. */
  lemma {:induction false} RepairLifts(s: Sled, ls: seq<P.Event<Stored>>) returns (t: Sled)
    requires s.world.guard.Repairing? && P.Follows(s.world, ls) && P.Writing(ls)
    requires P.After(s.world, ls).guard.Idle?
    ensures Reaches(s, Locks(ls), t) && t.world == P.After(s.world, ls)
    ensures t.memory == Decoded(s.world.guard.verdict) && t.loaded
    decreases |ls|
  {
    assert P.Writing([ls[0]]);
    WritingStep(s.world, ls[0]);
    var m := Next(s, Lock(ls[0]));
    if m.world.guard.Idle? {
      IdleLifts(m, ls[1..]);
      t := m.(world := P.After(s.world, ls));
    } else {
      t := RepairLifts(m, ls[1..]);
    }
    Join(s, ls, t);
  }

  /** Deciding answers the load at once, or leaves its repair to be written. */
  lemma {:induction false} DecideLifts(s: Sled)
    requires !s.loaded && s.world.guard.Loading? && |s.world.guard.seen| == |s.world.files| && P.Shape(s.world)
    ensures Enabled(s, Lock(P.Decide))
    ensures var m, verdict := Next(s, Lock(P.Decide)), VerdictOn(s.world.guard.seen, s.world.baseboard);
      && m.world == P.Next(s.world, P.Decide) && P.Shape(m.world)
      && if m.world.guard.Repairing? then m.world.guard.verdict == verdict
         else m.world.guard.Idle? && m.memory == Decoded(verdict) && m.loaded
  {
  }

  /** `BoundaryStore.Load` is a run of the protocol. */
  lemma {:induction false} LoadIsARun(s: Sled, owner: Owner, faults: seq<WriteResult>)
    returns (es: seq<Event>, t: Sled)
    requires P.ActsAs(s.world, owner, faults) && !s.loaded
    requires s.world.guard.Idle? && s.world.commit.NoCommit? && s.world.committed <= s.world.reserved
    ensures Reaches(s, es, t) && t.loaded
    ensures P.View(t.world) == LoadEffect(P.View(s.world), owner, faults).0
    ensures t.memory == Decoded(VerdictOn(s.world.files, s.world.baseboard))
  {
    var looks, c := P.LookingIsARun(s.world);
    LookLifts(s, looks);
    var m := s.(world := c);
    P.DecidingMatches(c, owner, faults);
    DecideLifts(m);
    t := Next(m, Lock(P.Decide));
    assert [Lock(P.Decide)][1..] == [];
    Concat(s, Locks(looks), m, [Lock(P.Decide)]);
    es := Locks(looks) + [Lock(P.Decide)];
    if t.world.guard.Repairing? {
      var d := t;
      var rest, x := P.WriterIsARun(d.world, d.world.reserved, owner, faults);
      t := RepairLifts(d, rest);
      Concat(s, es, d, Locks(rest));
      es := es + Locks(rest);
    }
  }
}
