/** When loads cannot go back: the exact state of slots and writers from which no
later load returns a record older than a given store (server/src/locker.rs).

Slots that are rolled back are left out here: they can always go back. */
module LockerLoads {
  import opened Locker
  import opened LockerProtocol
  import opened Wrappers

  /** `record` is the k-th store or a later one. */
  ghost predicate From<R>(w: World<R>, k: nat, record: R) {
    exists v: nat :: k <= v < |w.log| && w.log[v] == record
  }

  /** The number a writer must exceed to write at all: a commit that has written
      every slot has only to say so. */
  ghost function Bar<R>(w: World<R>): nat {
    if w.commit.Committing? && w.commit.next == |w.files| then w.commit.number else w.committed
  }

  ghost predicate SlotsFrom<R>(w: World<R>, k: nat) {
    forall i :: 0 <= i < |w.files| && Own(w.files[i], w.baseboard) ==> From(w, k, w.files[i].envelope.record)
  }

  ghost predicate WritersFrom<R>(w: World<R>, k: nat) {
    && (forall m :: |w.files| > 0 && m in w.waiting && m > Bar(w) ==> From(w, k, w.waiting[m]))
    && (w.commit.Committing? && w.commit.next < |w.files| ==> From(w, k, w.commit.record))
  }

  /** Every slot of ours, every writer that can still write and the commit at work
      carry the k-th store or a later one. */
  ghost predicate NothingBehind<R>(w: World<R>, k: nat) {
    SlotsFrom(w, k) && WritersFrom(w, k)
  }

  // ---- Then no load goes behind

  ghost predicate LoadFrom<R>(w: World<R>, k: nat) {
    match w.guard
    case Loading(seen, _) =>
      forall i :: 0 <= i < |seen| && Own(seen[i], w.baseboard) ==> From(w, k, seen[i].envelope.record)
    case Repairing(_, verdict) => verdict.HasRecord() && From(w, k, verdict.record)
    case _ => true
  }

  ghost predicate Ordered<R>(w: World<R>) {
    && Shape(w)
    && (w.commit.Committing? ==> w.committed < w.commit.number && w.commit.next <= |w.files|)
  }

  ghost predicate Stays<R>(w: World<R>, k: nat) {
    Ordered(w) && k <= |w.log| && NothingBehind(w, k) && LoadFrom(w, k)
  }

  lemma {:induction false} FromGrows<R>(w: World<R>, x: World<R>, k: nat)
    requires w.log <= x.log
    ensures forall r: R :: From(w, k, r) ==> From(x, k, r)
  {
    forall r: R | From(w, k, r)
      ensures From(x, k, r)
    {
      var v: nat :| k <= v < |w.log| && w.log[v] == r;
      assert x.log[v] == r;
    }
  }

  lemma {:induction false} VerdictFrom<R>(w: World<R>, k: nat)
    requires w.guard.Loading? && LoadFrom(w, k)
    ensures var v := VerdictOn(w.guard.seen, w.baseboard); v.HasRecord() ==> From(w, k, v.record)
  {
    VerdictComesFromASlot(w.guard.seen, w.baseboard);
  }

  lemma {:induction false} DecideStays<R>(w: World<R>, k: nat)
    requires Stays(w, k) && Enabled(w, Decide)
    ensures Stays(Next(w, Decide), k)
  {
    var x := Next(w, Decide);
    var v, reserved, repairs := DecideCases(w);
    VerdictFrom(w, k);
    FromGrows(w, x, k);
  }

  lemma {:induction false} StoreStays<R>(w: World<R>, k: nat, record: R)
    requires Stays(w, k) && Enabled(w, BeginStore(record))
    ensures Stays(Next(w, BeginStore(record)), k)
  {
    var x := Next(w, BeginStore(record));
    FromGrows(w, x, k);
    assert x.log[|w.log|] == record;
  }

  lemma {:induction false} WriteStays<R>(w: World<R>, k: nat, e: Event<R>)
    requires Stays(w, k) && Enabled(w, e) && (e.WriteSlot? || e.FailWrite? || e.Damage?)
    ensures Stays(Next(w, e), k)
  {
    FromGrows(w, Next(w, e), k);
  }

  lemma {:induction false} CommitStays<R>(w: World<R>, k: nat, e: Event<R>)
    requires Stays(w, k) && Enabled(w, e) && (e.BeginCommit? || e.EndCommit?)
    ensures Stays(Next(w, e), k)
  {
    FromGrows(w, Next(w, e), k);
  }

  lemma {:induction false} GuardStays<R>(w: World<R>, k: nat, e: Event<R>)
    requires Stays(w, k) && Enabled(w, e) && (e.Cancel? || e.BeginLoad? || e.ReadSlot? || e.Restart?)
    ensures Stays(Next(w, e), k)
  {
    FromGrows(w, Next(w, e), k);
  }

  lemma {:induction false} StepStays<R>(w: World<R>, k: nat, e: Event<R>)
    requires Stays(w, k) && Enabled(w, e) && !e.Rollback?
    ensures Stays(Next(w, e), k)
  {
    match e {
      case BeginStore(record) => StoreStays(w, k, record);
      case Decide => DecideStays(w, k);
      case WriteSlot => WriteStays(w, k, e);
      case FailWrite(_) => WriteStays(w, k, e);
      case Damage(_, _) => WriteStays(w, k, e);
      case BeginCommit(_) => CommitStays(w, k, e);
      case EndCommit => CommitStays(w, k, e);
      case Cancel => GuardStays(w, k, e);
      case BeginLoad => GuardStays(w, k, e);
      case ReadSlot => GuardStays(w, k, e);
      case Restart(_) => GuardStays(w, k, e);
    }
  }

  lemma {:induction false} ReturnedFrom<R>(w: World<R>, k: nat, e: Event<R>)
    requires Stays(w, k) && Enabled(w, e)
    ensures var returned := Returned(w, e);
      returned.Some? && returned.value.HasRecord() ==> From(w, k, returned.value.record)
  {
    if e.Decide? {
      VerdictFrom(w, k);
    }
  }

  lemma {:induction false} RunStays<R>(w: World<R>, k: nat, es: seq<Event<R>>)
    requires Stays(w, k) && Follows(w, es) && forall i :: 0 <= i < |es| ==> !es[i].Rollback?
    ensures Stays(After(w, es), k)
    decreases |es|
  {
    if |es| > 0 {
      StepStays(w, k, es[0]);
      RunStays(Next(w, es[0]), k, es[1..]);
    }
  }

  // ---- Otherwise some load does

  /** A run from `w` that rolls nothing back and begins no store leads to `x`. */
  ghost predicate Leads<R>(w: World<R>, es: seq<Event<R>>, x: World<R>) {
    Reaches(w, es, x) && x.log == w.log && forall i :: 0 <= i < |es| ==> !es[i].Rollback? && !es[i].BeginStore?
  }

  lemma {:induction false} LeadsOn<R>(w: World<R>, es: seq<Event<R>>, x: World<R>, e: Event<R>)
    returns (fs: seq<Event<R>>)
    requires Leads(w, es, x) && Enabled(x, e) && !e.Rollback? && !e.BeginStore?
    ensures Leads(w, fs, Next(x, e))
  {
    fs := Extend(w, es, x, e);
  }

  lemma {:induction false} FreshNonce(lives: set<nat>) returns (nonce: nat)
    ensures forall n <- lives :: n < nonce
  {
    nonce := 0;
    if lives != {} {
      var n :| n in lives;
      var rest := FreshNonce(lives - {n});
      nonce := if n < rest then rest else n + 1;
      assert forall m <- lives :: m == n || m in lives - {n};
    }
  }

  /** Slot `i` holds an envelope of ours and nobody is at work. */
  ghost predicate Resting<R>(x: World<R>, i: nat, e: Envelope<R>) {
    && Shape(x) && x.guard.Idle? && x.commit.NoCommit? && x.committed == 0 && x.waiting == map[]
    && i < |x.files| && x.files[i] == Sealed(e) && e.baseboard == x.baseboard
  }

  ghost predicate Cleared<R>(x: World<R>, i: nat, k: nat) {
    forall j :: 0 <= j < k && j < |x.files| && j != i ==> x.files[j].Missing?
  }

  /** Every slot but one is lost. */
  lemma {:induction false} LoseOthers<R>(w: World<R>, es: seq<Event<R>>, x: World<R>, i: nat, e: Envelope<R>, k: nat)
    returns (fs: seq<Event<R>>, y: World<R>)
    requires Leads(w, es, x) && Resting(x, i, e) && k <= |x.files| && Cleared(x, i, k)
    ensures Leads(w, fs, y) && Resting(y, i, e) && Cleared(y, i, |y.files|)
    decreases |x.files| - k
  {
    fs, y := es, x;
    if k < |x.files| {
      if k != i {
        fs := LeadsOn(w, es, x, Damage(k, Missing));
        y := Next(x, Damage(k, Missing));
      }
      fs, y := LoseOthers(w, fs, y, i, e, k + 1);
    }
  }

  lemma {:induction false} LoneVerdict<R>(files: seq<SlotFile<R>>, baseboard: nat, i: nat, e: Envelope<R>)
    requires i < |files| && files[i] == Sealed(e) && e.baseboard == baseboard
    requires forall j :: 0 <= j < |files| && j != i ==> files[j].Missing?
    ensures var scan := ScanFrom(files, baseboard, 0);
      scan.Found? && |scan.envelopes| > 0
      && VerdictOn(files, baseboard) == (if |files| == 1 then Adopt(e.record) else Restore(e.record))
      && (Repairs(scan.envelopes, |files|) <==> |files| > 1)
  {
    ScanFinds(files, baseboard, 0);
    var found := ScanFrom(files, baseboard, 0).envelopes;
    assert Holds(files, 0, e);
    forall j | 0 <= j < |found|
      ensures found[j] == e
    {
      assert found[j] in found && Holds(files, 0, found[j]);
    }
    assert |files| > 1 ==> files[if i == 0 then 1 else 0].Missing?;
  }

  /** The load of a lone record ends by returning it, even if its repair fails. */
  lemma {:induction false} LoneRecordReturned<R>(w: World<R>, es: seq<Event<R>>, x: World<R>, i: nat, e: Envelope<R>)
    returns (fs: seq<Event<R>>, y: World<R>, last: Event<R>)
    requires Leads(w, es, x) && Resting(x, i, e) && Cleared(x, i, |x.files|)
    ensures Leads(w, fs, y) && Enabled(y, last)
    ensures var returned := Returned(y, last);
      returned.Some? && returned.value.HasRecord() && returned.value.record == e.record
  {
    var looks, c := LookingIsARun(x);
    AfterConcat(w, es, looks);
    fs, y, last := es + looks, c, Decide;
    LoneVerdict(c.guard.seen, c.baseboard, i, e);
    if |x.files| > 1 {
      fs := LeadsOn(w, fs, c, Decide);
      var d := Next(c, Decide);
      var number := d.reserved;
      assert d.guard == Repairing(number, Restore(e.record)) && number in d.waiting && number > 0;
      fs := LeadsOn(w, fs, d, BeginCommit(number));
      y, last := Next(d, BeginCommit(number)), FailWrite(false);
      assert y.guard == d.guard && y.commit.number == number;
    }
  }

  /** Whatever one slot of ours holds, some load yet to come returns. */
  lemma {:induction false} SlotIsReturned<R>(w: World<R>, es: seq<Event<R>>, x: World<R>, i: nat)
    returns (fs: seq<Event<R>>, y: World<R>, last: Event<R>)
    requires Leads(w, es, x) && i < |x.files| && Own(x.files[i], x.baseboard)
    ensures Leads(w, fs, y) && Enabled(y, last)
    ensures var returned := Returned(y, last);
      returned.Some? && returned.value.HasRecord() && returned.value.record == x.files[i].envelope.record
  {
    var nonce := FreshNonce(x.lives);
    fs := LeadsOn(w, es, x, Restart(nonce));
    y := Next(x, Restart(nonce));
    fs, y := LoseOthers(w, fs, y, i, x.files[i].envelope, 0);
    fs, y, last := LoneRecordReturned(w, fs, y, i, x.files[i].envelope);
  }

  /** The commit at work can leave its record in the slot it is about to write. */
  lemma {:induction false} CommitLands<R>(w: World<R>, es: seq<Event<R>>, x: World<R>)
    returns (fs: seq<Event<R>>, y: World<R>)
    requires Leads(w, es, x) && x.commit.Committing? && x.commit.next < |x.files|
    ensures Leads(w, fs, y) && |y.files| == |x.files| && y.baseboard == x.baseboard
    ensures Own(y.files[x.commit.next], y.baseboard)
      && y.files[x.commit.next].envelope.record == x.commit.record
  {
    fs := LeadsOn(w, es, x, FailWrite(true));
    y := Next(x, FailWrite(true));
  }

  /** A waiting writer that is not superseded can leave its record in the first
      slot. */
  lemma {:induction false} WriterLands<R>(w: World<R>, es: seq<Event<R>>, x: World<R>, m: nat)
    returns (fs: seq<Event<R>>, y: World<R>)
    requires Leads(w, es, x) && Ordered(x) && |x.files| > 0 && m in x.waiting && m > Bar(x)
    ensures Leads(w, fs, y) && |y.files| == |x.files| && y.baseboard == x.baseboard
    ensures Own(y.files[0], y.baseboard) && y.files[0].envelope.record == x.waiting[m]
  {
    fs, y := es, x;
    if x.commit.Committing? {
      var e: Event<R> := if x.commit.next < |x.files| then FailWrite(false) else EndCommit;
      fs := LeadsOn(w, es, x, e);
      y := Next(x, e);
    }
    assert y.commit.NoCommit? && m in y.waiting && y.waiting[m] == x.waiting[m] && m > y.committed;
    fs := LeadsOn(w, fs, y, BeginCommit(m));
    y := Next(y, BeginCommit(m));
    fs, y := CommitLands(w, fs, y);
  }

  // ---- The exact condition

  /** After a run without rollbacks, `e` hands `record` to the caller of a load. */
  ghost predicate Yields<R>(w: World<R>, es: seq<Event<R>>, e: Event<R>, record: R) {
    && Follows(w, es) && (forall i :: 0 <= i < |es| ==> !es[i].Rollback?)
    && Enabled(After(w, es), e)
    && var returned := Returned(After(w, es), e);
       returned.Some? && returned.value.HasRecord() && returned.value.record == record
  }

  lemma {:induction false} BehindIsReturned<R>(w: World<R>, k: nat) returns (es: seq<Event<R>>, e: Event<R>, record: R)
    requires Ordered(w) && !NothingBehind(w, k)
    ensures Yields(w, es, e, record) && After(w, es).log == w.log && !From(w, k, record)
  {
    var i: nat, x := 0, w;
    es := [];
    if !SlotsFrom(w, k) {
      i :| 0 <= i < |w.files| && Own(w.files[i], w.baseboard) && !From(w, k, w.files[i].envelope.record);
    } else if w.commit.Committing? && w.commit.next < |w.files| && !From(w, k, w.commit.record) {
      i := w.commit.next;
      es, x := CommitLands(w, es, w);
    } else {
      var m :| m in w.waiting && m > Bar(w) && !From(w, k, w.waiting[m]);
      es, x := WriterLands(w, es, w, m);
    }
    record := x.files[i].envelope.record;
    var y;
    es, y, e := SlotIsReturned(w, es, x, i);
  }

  /** With no load under way, no later load returns a record older than the k-th
      store if and only if nothing of ours in the slots, no writer that can still
      write and no commit at work carries one. */
  lemma {:induction false} LoadsStayIff<R>(w: World<R>, k: nat)
    requires Ordered(w) && k <= |w.log| && (w.guard.Idle? || w.guard.Storing?)
    ensures NothingBehind(w, k) <==>
            forall es, e, record :: Yields(w, es, e, record) ==> From(After(w, es), k, record)
  {
    if NothingBehind(w, k) {
      forall es, e, record | Yields(w, es, e, record)
        ensures From(After(w, es), k, record)
      {
        RunStays(w, k, es);
        ReturnedFrom(After(w, es), k, e);
      }
    } else {
      var es, e, record := BehindIsReturned(w, k);
      assert Yields(w, es, e, record) && !From(After(w, es), k, record);
    }
  }

  // ---- After an acknowledgement

  /** The invariant puts nothing behind the acknowledged store, where no slot was
      rolled back. */
  lemma {:induction false} AcknowledgedStays<R>(w: World<R>)
    requires Inv(w) && Upright(w)
    ensures Stays(w, Since(w))
  {
    assert forall r: R :: NewEnough(w, r) ==> From(w, Since(w), r);
    forall i | 0 <= i < |w.files| && Own(w.files[i], w.baseboard)
      ensures From(w, Since(w), w.files[i].envelope.record)
    {
      assert Genuine(w, w.files[i]) && Fresh(w, w.files[i]);
    }
    if w.guard.Loading? {
      forall i | 0 <= i < |w.guard.seen| && Own(w.guard.seen[i], w.baseboard)
        ensures From(w, Since(w), w.guard.seen[i].envelope.record)
      {
        assert Genuine(w, w.guard.seen[i]) && Fresh(w, w.guard.seen[i]);
      }
    }
  }

  lemma {:induction false} LogStays<R>(w: World<R>, es: seq<Event<R>>)
    requires Follows(w, es) && forall i :: 0 <= i < |es| ==> !es[i].BeginStore?
    ensures After(w, es).log == w.log
    decreases |es|
  {
    if |es| > 0 {
      LogStays(Next(w, es[0]), es[1..]);
    }
  }

  /** When the last store of a run was acknowledged, every load until the next store
      begins returns exactly its record, or none: whatever fails, is damaged or
      crashes meanwhile. */
  lemma {:induction false} AcknowledgedIsRead<R>(w: World<R>, es: seq<Event<R>>, fs: seq<Event<R>>, e: Event<R>, record: R)
    requires Init(w) && Follows(w, es) && forall i :: 0 <= i < |es| ==> !es[i].Rollback?
    requires After(w, es).acked == |After(w, es).log| > 0
    requires Yields(After(w, es), fs, e, record) && forall i :: 0 <= i < |fs| ==> !fs[i].BeginStore?
    ensures record == After(w, es).log[|After(w, es).log| - 1]
  {
    UprightRunsAreTrusted(w, es);
    InitHolds(w);
    RunKeeps(w, es);
    var x := After(w, es);
    AcknowledgedStays(x);
    RunStays(x, Since(x), fs);
    LogStays(x, fs);
    ReturnedFrom(After(x, fs), Since(x), e);
  }

  /** Every world a run reaches is one the exact condition speaks of. */
  lemma {:induction false} ReachedIsOrdered<R>(w: World<R>, es: seq<Event<R>>)
    requires Init(w) && Follows(w, es) && Trusted(w, es)
    ensures Ordered(After(w, es))
  {
    InitHolds(w);
    RunKeeps(w, es);
  }
}
