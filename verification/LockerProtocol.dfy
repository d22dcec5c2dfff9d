/** Every run of one tenant of a locker (server/src/locker.rs): stores, stores
whose caller went away while the blocking writer stayed behind, writes that
fail, slots that are wiped, damaged or rolled back, crashes, and loads that read
slot by slot while detached writers are still at work.

`log` lists every store call in order and `acked` counts up to the last one
whose caller was told `Ok`. Neither exists in the program: they say what a load
may return. A record is compared by its bytes, as the program does. */
module LockerProtocol {
  import opened Locker
  import opened Wrappers

  /** The blocking half of a store, which holds the `committed` lock. */
  datatype Commit<R> = NoCommit | Committing(number: nat, record: R, next: nat)

  /** Who holds the `reserved` lock, and how far it got. */
  datatype Guard<R> =
    | Idle
    | Storing(number: nat, entry: nat)
    | Loading(seen: seq<SlotFile<R>>, sound: seq<bool>)
    | Repairing(number: nat, verdict: Verdict<R>)

  datatype World<R> = World(
    baseboard: nat,
    files: seq<SlotFile<R>>,
    rolled: seq<bool>,                  // the slot was rolled back since it was last written
    past: seq<seq<SlotFile<R>>>,        // everything each slot has held
    nonce: nat, lives: set<nat>,
    reserved: nat, committed: nat,
    waiting: map<nat, R>,               // reserved stores whose writer has not begun
    commit: Commit<R>,
    guard: Guard<R>,
    issued: map<(nat, nat), R>,         // (nonce, number) of every store and repair
    recent: set<(nat, nat)>,            // those issued no earlier than the last acknowledged store
    log: seq<R>, acked: nat)

  datatype Event<R> =
    | BeginStore(record: R)
    | Cancel
    | BeginCommit(number: nat)
    | WriteSlot
    | FailWrite(landed: bool)
    | EndCommit
    | BeginLoad
    | ReadSlot
    | Decide
    | Damage(slot: nat, file: SlotFile<R>)
    | Rollback(slot: nat, moment: nat)
    | Restart(nonce: nat)

  ghost predicate Init<R>(w: World<R>) {
    && (forall i :: 0 <= i < |w.files| ==> w.files[i] == Missing)
    && |w.rolled| == |w.past| == |w.files|
    && (forall i :: 0 <= i < |w.files| ==> !w.rolled[i] && w.past[i] == [])
    && w.lives == {w.nonce}
    && w.reserved == w.committed == 0
    && w.waiting == map[] && w.commit == NoCommit && w.guard == Idle
    && w.issued == map[] && w.recent == {}
    && w.log == [] && w.acked == 0
  }

  ghost predicate Shape<R>(w: World<R>) {
    |w.files| == |w.past| == |w.rolled|
  }

  ghost predicate Enabled<R>(w: World<R>, e: Event<R>) {
    match e
    case BeginStore(_) => w.guard.Idle?
    case Cancel => !w.guard.Idle?
    case BeginCommit(number) => w.commit.NoCommit? && number in w.waiting
    case WriteSlot => w.commit.Committing? && w.commit.next < |w.files|
    case FailWrite(_) => w.commit.Committing? && w.commit.next < |w.files|
    case EndCommit => w.commit.Committing? && w.commit.next == |w.files|
    case BeginLoad => w.guard.Idle?
    case ReadSlot => w.guard.Loading? && |w.guard.seen| < |w.files|
    case Decide => w.guard.Loading? && |w.guard.seen| == |w.files|
    case Damage(slot, file) => slot < |w.files| && !Own(file, w.baseboard)
    case Rollback(slot, moment) => slot < |w.files| == |w.past| && moment < |w.past[slot]|
    case Restart(nonce) => nonce !in w.lives
  }

  // ---- What each event does

  ghost function Put<R>(w: World<R>, slot: nat, file: SlotFile<R>, rolled: bool): World<R>
    requires Shape(w) && slot < |w.files|
  {
    w.(files := w.files[slot := file],
       rolled := w.rolled[slot := rolled],
       past := w.past[slot := w.past[slot] + [file]])
  }

  /** Reserve the next number for `record` and leave its writer waiting. */
  ghost function Issue<R>(w: World<R>, record: R): World<R> {
    var number := w.reserved + 1;
    w.(reserved := number,
       waiting := w.waiting[number := record],
       issued := w.issued[(w.nonce, number) := record],
       recent := w.recent + {(w.nonce, number)})
  }

  /** The store or repair numbered `number` has its answer, unless its caller
      went away. */
  ghost function Release<R>(w: World<R>, number: nat): World<R> {
    if (w.guard.Storing? || w.guard.Repairing?) && w.guard.number == number
    then w.(guard := Idle) else w
  }

  ghost function Current<R>(w: World<R>): Envelope<R>
    requires w.commit.Committing?
  {
    Envelope(w.nonce, w.commit.number, w.baseboard, w.commit.record)
  }

  ghost function NextDecide<R>(w: World<R>): World<R>
    requires w.guard.Loading?
  {
    match ScanFrom(w.guard.seen, w.baseboard, 0)
    case Bad(_) => w.(guard := Idle)
    case Found(found) =>
      var v := Judge(found, |w.files|);
      if !v.HasRecord() then w.(guard := Idle)
      else
        var raised := w.(reserved := Raised(w.reserved, found));
        if Repairs(found, |w.files|) then
          Issue(raised, v.record).(guard := Repairing(raised.reserved + 1, v))
        else raised.(guard := Idle)
  }

  ghost function Next<R>(w: World<R>, e: Event<R>): World<R>
    requires Shape(w) && Enabled(w, e)
  {
    match e
    case BeginStore(record) =>
      Issue(w, record).(log := w.log + [record], guard := Storing(w.reserved + 1, |w.log|))
    case Cancel => w.(guard := Idle)
    case BeginCommit(number) =>
      var begun := w.(waiting := w.waiting - {number});
      if number <= w.committed then Release(begun, number)
      else begun.(commit := Committing(number, w.waiting[number], 0))
    case WriteSlot =>
      Put(w, w.commit.next, Sealed(Current(w)), false).(commit := w.commit.(next := w.commit.next + 1))
    case FailWrite(landed) =>
      var tried := if landed then Put(w, w.commit.next, Sealed(Current(w)), false) else w;
      Release(tried.(commit := NoCommit), w.commit.number)
    case EndCommit =>
      var done := w.(commit := NoCommit, committed := w.commit.number);
      var told := if w.guard.Storing? && w.guard.number == w.commit.number
        then done.(acked := w.guard.entry + 1, recent := {(w.nonce, w.commit.number)}) else done;
      Release(told, w.commit.number)
    case BeginLoad => w.(guard := Loading([], []))
    case ReadSlot =>
      var i := |w.guard.seen|;
      w.(guard := Loading(w.guard.seen + [w.files[i]], w.guard.sound + [!w.rolled[i]]))
    case Decide => NextDecide(w)
    case Damage(slot, file) => Put(w, slot, file, w.rolled[slot])
    case Rollback(slot, moment) => Put(w, slot, w.past[slot][moment], true)
    case Restart(nonce) =>
      w.(nonce := nonce, lives := w.lives + {nonce}, reserved := 0, committed := 0,
         waiting := map[], commit := NoCommit, guard := Idle)
  }

  /** The verdict `e` hands to the caller of a load, if it does. */
  ghost function Returned<R>(w: World<R>, e: Event<R>): Option<Verdict<R>>
    requires Shape(w) && Enabled(w, e)
  {
    if e.Decide? then
      if NextDecide(w).guard.Idle? then Some(VerdictOn(w.guard.seen, w.baseboard)) else None
    else if (e.BeginCommit? || e.FailWrite? || e.EndCommit?)
            && w.guard.Repairing? && Next(w, e).guard.Idle? then Some(w.guard.verdict)
    else None
  }

  // ---- What a load may return

  ghost function Since<R>(w: World<R>): nat {
    if w.acked == 0 then 0 else w.acked - 1
  }

  /** `record` is the last acknowledged store or one that came after it. */
  ghost predicate NewEnough<R>(w: World<R>, record: R) {
    exists v: nat :: Since(w) <= v < |w.log| && w.log[v] == record
  }

  /** If a load is about to settle on a record, it saw one of ours in a slot that
      had not been rolled back. */
  ghost predicate Trustworthy<R>(w: World<R>, e: Event<R>) {
    e.Decide? && w.guard.Loading? && |w.guard.sound| == |w.guard.seen|
    && VerdictOn(w.guard.seen, w.baseboard).HasRecord() ==>
      exists i :: 0 <= i < |w.guard.seen| && Own(w.guard.seen[i], w.baseboard) && w.guard.sound[i]
  }

  // ---- The invariant

  ghost function Id<R>(e: Envelope<R>): (nat, nat) { (e.nonce, e.number) }

  ghost predicate Genuine<R>(w: World<R>, file: SlotFile<R>) {
    Own(file, w.baseboard) ==>
      Id(file.envelope) in w.issued && w.issued[Id(file.envelope)] == file.envelope.record
  }

  ghost predicate Fresh<R>(w: World<R>, file: SlotFile<R>) {
    Own(file, w.baseboard) ==> Id(file.envelope) in w.recent
  }

  ghost predicate Numbers<R>(w: World<R>) {
    && w.nonce in w.lives
    && w.committed <= w.reserved
    && w.acked <= |w.log|
    && (forall id :: id in w.issued ==> id.0 in w.lives && (id.0 == w.nonce ==> id.1 <= w.reserved))
    && (forall id :: id in w.recent ==> id in w.issued && NewEnough(w, w.issued[id]))
    && (forall a, b :: a in w.recent && b in w.issued && a.0 == b.0 && a.1 < b.1 ==> b in w.recent)
  }

  ghost predicate Slots<R>(w: World<R>) {
    && Shape(w)
    && (forall i :: 0 <= i < |w.files| ==> Genuine(w, w.files[i]))
    && (forall i :: 0 <= i < |w.files| && !w.rolled[i] ==> Fresh(w, w.files[i]))
    && (forall i, j :: 0 <= i < |w.past| && 0 <= j < |w.past[i]| ==> Genuine(w, w.past[i][j]))
  }

  ghost predicate Writers<R>(w: World<R>) {
    && |w.files| == |w.rolled|
    && (forall m :: m in w.waiting ==>
          && m <= w.reserved && (w.nonce, m) in w.issued && w.issued[(w.nonce, m)] == w.waiting[m]
          && (m > w.committed ==> (w.nonce, m) in w.recent))
    && (w.commit.Committing? ==>
          && w.commit.number !in w.waiting
          && w.committed < w.commit.number <= w.reserved && w.commit.next <= |w.files|
          && (w.nonce, w.commit.number) in w.recent && (w.nonce, w.commit.number) in w.issued
          && w.issued[(w.nonce, w.commit.number)] == w.commit.record
          && forall j :: 0 <= j < w.commit.next && Own(w.files[j], w.baseboard) && !w.rolled[j] ==>
               w.files[j].envelope == Current(w))
  }

  ghost predicate Guarded<R>(w: World<R>) {
    match w.guard
    case Idle => true
    case Storing(number, entry) =>
      && number == w.reserved && entry + 1 == |w.log|
      && (w.nonce, number) in w.issued && w.issued[(w.nonce, number)] == w.log[entry]
    case Loading(seen, sound) =>
      && |seen| == |sound| <= |w.files|
      && forall i :: 0 <= i < |seen| ==> Genuine(w, seen[i]) && (sound[i] ==> Fresh(w, seen[i]))
    case Repairing(number, verdict) =>
      number == w.reserved && verdict.HasRecord() && NewEnough(w, verdict.record)
  }

  ghost predicate Inv<R>(w: World<R>) {
    Numbers(w) && Slots(w) && Writers(w) && Guarded(w)
  }

  // ---- The decision of a load

  /** Whatever a trustworthy load decides on is the last acknowledged record or
      a later one: equal bytes borrow their age from the slot that was not
      rolled back, and one nonce with a unique maximum cannot put an older
      envelope above it. */
  lemma {:induction false} DecisionIsNewEnough<R>(w: World<R>)
    requires Inv(w) && Enabled(w, Decide) && Trustworthy(w, Decide)
    ensures var v := VerdictOn(w.guard.seen, w.baseboard);
            v.HasRecord() ==> NewEnough(w, v.record)
  {
    var seen, sound := w.guard.seen, w.guard.sound;
    var v := VerdictOn(seen, w.baseboard);
    if v.HasRecord() {
      ScanFinds(seen, w.baseboard, 0);
      var found := ScanFrom(seen, w.baseboard, 0).envelopes;
      VerdictComesFromASlot(seen, w.baseboard);
      var i :| 0 <= i < |seen| && Own(seen[i], w.baseboard) && sound[i];
      var good := seen[i].envelope;
      assert Holds(seen, 0, good) && good in found;
      assert Genuine(w, seen[i]) && Fresh(w, seen[i]);
      if AllEqual(found) {
        assert good.record == v.record;
      } else {
        var k: nat :| IsNewest(found, k) && found[k].record == v.record;
        SeenIsGenuine(w, found[k]);
        assert Id(found[k]) in w.recent;
      }
    }
  }

  lemma {:induction false} SeenIsGenuine<R>(w: World<R>, e: Envelope<R>)
    requires Inv(w) && w.guard.Loading?
    requires ScanFrom(w.guard.seen, w.baseboard, 0).Found?
    requires e in ScanFrom(w.guard.seen, w.baseboard, 0).envelopes
    ensures Id(e) in w.issued && w.issued[Id(e)] == e.record
  {
    var seen := w.guard.seen;
    ScanFinds(seen, w.baseboard, 0);
    assert Holds(seen, 0, e);
    var j: nat :| j < |seen| && seen[j] == Sealed(e);
    assert Harmless(seen[j], w.baseboard) && Genuine(w, seen[j]);
  }

  // ---- Every event keeps the invariant

  lemma {:induction false} InitHolds<R>(w: World<R>)
    requires Init(w)
    ensures Inv(w)
  {
  }

  lemma {:induction false} NewEnoughGrows<R>(w: World<R>, x: World<R>, record: R)
    requires NewEnough(w, record)
    requires w.log <= x.log && x.acked == w.acked
    ensures NewEnough(x, record)
  {
    var v: nat :| Since(w) <= v < |w.log| && w.log[v] == record;
    assert x.log[v] == record;
  }

  /** What a file or a record is worth depends only on what was issued. */
  lemma {:induction false} Carry<R>(w: World<R>, x: World<R>)
    requires x.baseboard == w.baseboard && x.issued == w.issued && x.recent == w.recent
    requires x.log == w.log && x.acked == w.acked
    ensures forall f: SlotFile<R> :: Genuine(w, f) ==> Genuine(x, f)
    ensures forall f: SlotFile<R> :: Fresh(w, f) ==> Fresh(x, f)
    ensures forall r: R :: NewEnough(w, r) ==> NewEnough(x, r)
  {
    forall r: R | NewEnough(w, r) ensures NewEnough(x, r) { NewEnoughGrows(w, x, r); }
  }

  lemma {:induction false} IssueKeeps<R>(w: World<R>, record: R, x: World<R>)
    requires Numbers(w) && Slots(w) && Writers(w)
    requires x == Issue(w, record) || x == Issue(w, record).(log := w.log + [record])
    requires NewEnough(x, record)
    ensures Numbers(x) && Slots(x) && Writers(x)
  {
    var id := (w.nonce, w.reserved + 1);
    assert id !in w.issued;
    forall a | a in x.recent ensures a in x.issued && NewEnough(x, x.issued[a]) {
      if a != id {
        NewEnoughGrows(w, x, w.issued[a]);
      }
    }
    assert forall file: SlotFile<R> :: Genuine(w, file) ==> Genuine(x, file);
    assert forall file: SlotFile<R> :: Fresh(w, file) ==> Fresh(x, file);
    if w.commit.Committing? {
      assert Current(x) == Current(w);
    }
  }

  lemma {:induction false} BeginStoreKeeps<R>(w: World<R>, record: R)
    requires Inv(w) && Enabled(w, BeginStore(record))
    ensures Inv(Next(w, BeginStore(record)))
  {
    var x := Issue(w, record).(log := w.log + [record]);
    assert x.log[|w.log|] == record;
    IssueKeeps(w, record, x);
    SameCore(x, Next(w, BeginStore(record)));
  }

  /** Numbers, slots and writers do not look at the guard. */
  lemma {:induction false} SameCore<R>(w: World<R>, x: World<R>)
    requires Numbers(w) && Slots(w) && Writers(w)
    requires x == w.(guard := x.guard)
    ensures Numbers(x) && Slots(x) && Writers(x)
    ensures forall f: SlotFile<R> :: Genuine(w, f) ==> Genuine(x, f)
    ensures forall f: SlotFile<R> :: Fresh(w, f) ==> Fresh(x, f)
    ensures forall r: R :: NewEnough(w, r) ==> NewEnough(x, r)
  {
    Carry(w, x);
    if w.commit.Committing? {
      assert Current(x) == Current(w);
    }
  }

  lemma {:induction false} LoadStepKeeps<R>(w: World<R>, e: Event<R>)
    requires Inv(w) && Enabled(w, e) && (e.Cancel? || e.BeginLoad? || e.ReadSlot?)
    ensures Inv(Next(w, e))
  {
    SameCore(w, Next(w, e));
  }

  /** `w` with the reserved number raised and the guard free. */
  ghost function Heard<R>(w: World<R>, reserved: nat): World<R> {
    w.(reserved := reserved, guard := Idle)
  }

  /** `w` with a repair of the verdict's record begun. */
  ghost function Repair<R>(w: World<R>, v: Verdict<R>): World<R>
    requires v.HasRecord()
  {
    Issue(w, v.record).(guard := Repairing(w.reserved + 1, v))
  }

  /** The three outcomes of a decision. */
  lemma {:induction false} DecideCases<R>(w: World<R>) returns (v: Verdict<R>, reserved: nat, repairs: bool)
    requires Shape(w) && Enabled(w, Decide)
    ensures v == VerdictOn(w.guard.seen, w.baseboard)
    ensures w.reserved <= reserved
    ensures Next(w, Decide) ==
            if !v.HasRecord() then w.(guard := Idle)
            else if repairs then Repair(Heard(w, reserved), v)
            else Heard(w, reserved)
  {
    v, reserved, repairs := VerdictOn(w.guard.seen, w.baseboard), w.reserved, false;
    var scan := ScanFrom(w.guard.seen, w.baseboard, 0);
    if scan.Found? && v.HasRecord() {
      reserved := Raised(w.reserved, scan.envelopes);
      repairs := Repairs(scan.envelopes, |w.files|);
    }
  }

  lemma {:induction false} DecideKeeps<R>(w: World<R>)
    requires Inv(w) && Enabled(w, Decide) && Trustworthy(w, Decide)
    ensures Inv(Next(w, Decide))
  {
    var v, reserved, repairs := DecideCases(w);
    if v.HasRecord() {
      DecisionIsNewEnough(w);
      HeardKeeps(w, reserved, v.record);
      if repairs {
        RepairKeeps(Heard(w, reserved), v);
      }
    } else {
      LoadStepKeeps(w, Cancel);
    }
  }

  lemma {:induction false} RepairKeeps<R>(w: World<R>, v: Verdict<R>)
    requires Inv(w) && w.guard.Idle? && v.HasRecord() && NewEnough(w, v.record)
    ensures Inv(Repair(w, v))
  {
    var issued := Issue(w, v.record);
    NewEnoughGrows(w, issued, v.record);
    IssueKeeps(w, v.record, issued);
    SameCore(issued, Repair(w, v));
  }

  lemma {:induction false} HeardKeeps<R>(w: World<R>, reserved: nat, record: R)
    requires Inv(w) && w.reserved <= reserved && NewEnough(w, record)
    ensures Inv(Heard(w, reserved)) && NewEnough(Heard(w, reserved), record)
  {
    var x := Heard(w, reserved);
    Carry(w, x);
    if w.commit.Committing? {
      assert Current(x) == Current(w);
    }
  }

  /** Placing a genuine file in a slot keeps every part of the invariant, so
      long as a file placed as current is a recent one. */
  lemma {:induction false} PutKeeps<R>(w: World<R>, slot: nat, file: SlotFile<R>, rolled: bool)
    requires Inv(w) && slot < |w.files|
    requires Genuine(w, file) && (!rolled ==> Fresh(w, file))
    requires Own(file, w.baseboard) && !rolled && w.commit.Committing? ==> file.envelope == Current(w)
    ensures Inv(Put(w, slot, file, rolled))
  {
    var x := Put(w, slot, file, rolled);
    Carry(w, x);
    forall i, j | 0 <= i < |x.past| && 0 <= j < |x.past[i]| ensures Genuine(x, x.past[i][j]) {
      if i == slot && j == |w.past[slot]| {
        assert x.past[i][j] == file;
      } else {
        assert x.past[i][j] == w.past[i][j];
      }
    }
    if w.commit.Committing? {
      assert Current(x) == Current(w);
    }
  }

  lemma {:induction false} SlotChangeKeeps<R>(w: World<R>, e: Event<R>)
    requires Inv(w) && Enabled(w, e) && (e.Damage? || e.Rollback?)
    ensures Inv(Next(w, e))
  {
    match e {
      case Damage(slot, file) => PutKeeps(w, slot, file, w.rolled[slot]);
      case Rollback(slot, moment) => PutKeeps(w, slot, w.past[slot][moment], true);
    }
  }

  /** Forgetting the active commit keeps the rest. */
  lemma {:induction false} ForgetKeeps<R>(w: World<R>)
    requires Inv(w)
    ensures Inv(w.(commit := NoCommit))
  {
    Carry(w, w.(commit := NoCommit));
  }

  lemma {:induction false} ReleaseKeeps<R>(w: World<R>, number: nat)
    requires Inv(w)
    ensures Inv(Release(w, number))
  {
    SameCore(w, Release(w, number));
  }

  lemma {:induction false} WriteKeeps<R>(w: World<R>, e: Event<R>)
    requires Inv(w) && Enabled(w, e) && (e.WriteSlot? || e.FailWrite?)
    ensures Inv(Next(w, e))
  {
    var file := Sealed(Current(w));
    var put := Put(w, w.commit.next, file, false);
    PutKeeps(w, w.commit.next, file, false);
    match e {
      case WriteSlot =>
        var x := Next(w, e);
        Carry(put, x);
        assert Current(x) == Current(put) == Current(w);
      case FailWrite(landed) =>
        var tried := if landed then put else w;
        ForgetKeeps(tried);
        ReleaseKeeps(tried.(commit := NoCommit), w.commit.number);
    }
  }

  lemma {:induction false} BeginCommitKeeps<R>(w: World<R>, number: nat)
    requires Inv(w) && Enabled(w, BeginCommit(number))
    ensures Inv(Next(w, BeginCommit(number)))
  {
    var begun := w.(waiting := w.waiting - {number});
    var x := if number <= w.committed then begun
             else begun.(commit := Committing(number, w.waiting[number], 0));
    Carry(w, x);
    assert Inv(x);
    ReleaseKeeps(x, number);
  }

  /** An acknowledgement leaves no writer behind that could still get past the
      committed number, and every slot that was not rolled back holds it. */
  lemma {:induction false} EndCommitKeeps<R>(w: World<R>)
    requires Inv(w) && Enabled(w, EndCommit)
    ensures Inv(Next(w, EndCommit))
  {
    var number := w.commit.number;
    var done := w.(commit := NoCommit, committed := number);
    if w.guard.Storing? && w.guard.number == number {
      var x := done.(acked := w.guard.entry + 1, recent := {(w.nonce, number)});
      assert x.log[w.guard.entry] == x.issued[(w.nonce, number)];
      assert forall f: SlotFile<R> :: Genuine(w, f) ==> Genuine(x, f);
      forall i | 0 <= i < |x.files| && !x.rolled[i] ensures Fresh(x, x.files[i]) {
        assert Own(w.files[i], w.baseboard) ==> w.files[i].envelope == Current(w);
      }
      assert Inv(x.(guard := Idle)) by {
        assert NewEnough(x.(guard := Idle), x.issued[(w.nonce, number)]);
      }
    } else {
      Carry(w, done);
      assert Inv(done);
      ReleaseKeeps(done, number);
    }
  }

  lemma {:induction false} RestartKeeps<R>(w: World<R>, nonce: nat)
    requires Inv(w) && Enabled(w, Restart(nonce))
    ensures Inv(Next(w, Restart(nonce)))
  {
    var x := Next(w, Restart(nonce));
    Carry(w, x);
  }

  lemma {:induction false} StepKeeps<R>(w: World<R>, e: Event<R>)
    requires Inv(w) && Enabled(w, e) && Trustworthy(w, e)
    ensures Inv(Next(w, e))
  {
    match e {
      case BeginStore(record) => BeginStoreKeeps(w, record);
      case Cancel => LoadStepKeeps(w, e);
      case BeginCommit(number) => BeginCommitKeeps(w, number);
      case WriteSlot => WriteKeeps(w, e);
      case FailWrite(_) => WriteKeeps(w, e);
      case EndCommit => EndCommitKeeps(w);
      case BeginLoad => LoadStepKeeps(w, e);
      case ReadSlot => LoadStepKeeps(w, e);
      case Decide => DecideKeeps(w);
      case Damage(_, _) => SlotChangeKeeps(w, e);
      case Rollback(_, _) => SlotChangeKeeps(w, e);
      case Restart(nonce) => RestartKeeps(w, nonce);
    }
  }

  // ---- Runs

  /** `es` can happen from `w`. */
  ghost predicate Follows<R>(w: World<R>, es: seq<Event<R>>)
    decreases |es|
  {
    Shape(w) && (|es| > 0 ==> Enabled(w, es[0]) && Follows(Next(w, es[0]), es[1..]))
  }

  ghost function After<R>(w: World<R>, es: seq<Event<R>>): (x: World<R>)
    requires Follows(w, es)
    ensures Shape(x)
    decreases |es|
  {
    if |es| == 0 then w else After(Next(w, es[0]), es[1..])
  }

  /** Every load in the run is trustworthy. */
  ghost predicate Trusted<R>(w: World<R>, es: seq<Event<R>>)
    requires Follows(w, es)
    decreases |es|
  {
    |es| > 0 ==> Trustworthy(w, es[0]) && Trusted(Next(w, es[0]), es[1..])
  }

  lemma {:induction false} RunKeeps<R>(w: World<R>, es: seq<Event<R>>)
    requires Inv(w) && Follows(w, es) && Trusted(w, es)
    ensures Inv(After(w, es))
    decreases |es|
  {
    if |es| > 0 {
      StepKeeps(w, es[0]);
      RunKeeps(Next(w, es[0]), es[1..]);
    }
  }

  /** Rolled-back slots: after any run in which every load saw a slot that was
      not rolled back, a load of that kind returns no record older than the last
      acknowledged store, whatever the other slots were rolled back to. */
  lemma {:induction false} NoStaleAdoptionAfterRollback<R>(w: World<R>, es: seq<Event<R>>, e: Event<R>)
    requires Init(w) && Follows(w, es) && Trusted(w, es)
    requires Enabled(After(w, es), e) && Trustworthy(After(w, es), e)
    ensures var x := After(w, es);
      var returned := Returned(x, e);
      returned.Some? && returned.value.HasRecord() ==> NewEnough(x, returned.value.record)
  {
    InitHolds(w);
    RunKeeps(w, es);
    if e.Decide? {
      DecisionIsNewEnough(After(w, es));
    }
  }

  // ---- Without rollbacks every load is trustworthy

  ghost predicate Upright<R>(w: World<R>) {
    && (forall i :: 0 <= i < |w.rolled| ==> !w.rolled[i])
    && (w.guard.Loading? ==>
          && |w.guard.sound| == |w.guard.seen|
          && forall i :: 0 <= i < |w.guard.sound| ==> w.guard.sound[i])
  }

  lemma {:induction false} UprightStep<R>(w: World<R>, e: Event<R>)
    requires Shape(w) && Upright(w) && Enabled(w, e) && !e.Rollback?
    ensures Trustworthy(w, e) && Upright(Next(w, e))
  {
    if e.Decide? {
      VerdictComesFromASlot(w.guard.seen, w.baseboard);
    }
  }

  lemma {:induction false} UprightRunsAreTrusted<R>(w: World<R>, es: seq<Event<R>>)
    requires Upright(w) && Follows(w, es)
    requires forall i :: 0 <= i < |es| ==> !es[i].Rollback?
    ensures Trusted(w, es) && Upright(After(w, es))
    decreases |es|
  {
    if |es| > 0 {
      UprightStep(w, es[0]);
      UprightRunsAreTrusted(Next(w, es[0]), es[1..]);
    }
  }

  /** No stale adoption: over every run of stores, abandoned writers, failed
      writes, wiped and damaged slots, restarts and repairing loads, a load
      returns no record older than the last acknowledged store. */
  lemma {:induction false} NoStaleAdoption<R>(w: World<R>, es: seq<Event<R>>, e: Event<R>)
    requires Init(w) && Follows(w, es) && Enabled(After(w, es), e)
    requires forall i :: 0 <= i < |es| ==> !es[i].Rollback?
    ensures var x := After(w, es);
      var returned := Returned(x, e);
      returned.Some? && returned.value.HasRecord() ==> NewEnough(x, returned.value.record)
  {
    UprightRunsAreTrusted(w, es);
    if e.Decide? {
      UprightStep(After(w, es), e);
    }
    NoStaleAdoptionAfterRollback(w, es, e);
  }

  // ---- The locker as a register

  /** What a caller may rely on: stores are appended, an acknowledgement is
      always for the newest of them, and a load yields nothing older. */
  datatype Register<R> = Register(log: seq<R>, acked: nat) {
    ghost predicate MayRead(record: R) {
      exists v: nat :: (if acked == 0 then 0 else acked - 1) <= v < |log| && log[v] == record
    }
  }

  ghost predicate RegisterStep<R>(a: Register<R>, b: Register<R>) {
    || b == a
    || (|b.log| == |a.log| + 1 && a.log <= b.log && b.acked == a.acked)
    || (b.log == a.log && b.acked == |a.log|)
  }

  ghost function Abstract<R>(w: World<R>): Register<R> { Register(w.log, w.acked) }

  /** Every event is a step of the register or invisible to it, and every
      verdict is a permitted read. */
  lemma {:induction false} RefinesRegister<R>(w: World<R>, e: Event<R>)
    requires Inv(w) && Enabled(w, e) && Trustworthy(w, e)
    ensures RegisterStep(Abstract(w), Abstract(Next(w, e)))
    ensures var returned := Returned(w, e);
      returned.Some? && returned.value.HasRecord() ==> Abstract(w).MayRead(returned.value.record)
  {
    var returned := Returned(w, e);
    if returned.Some? && returned.value.HasRecord() {
      assert NewEnough(w, returned.value.record) by {
        if e.Decide? {
          DecisionIsNewEnough(w);
        }
      }
    }
  }

  /** `e` tells the caller of a store that its record is in every slot. */
  ghost predicate Acknowledges<R>(w: World<R>, e: Event<R>) {
    e.EndCommit? && w.commit.Committing? && w.guard.Storing? && w.guard.number == w.commit.number
  }

  /** Which events move the log and the acknowledgement, and how. */
  lemma {:induction false} LogMoves<R>(w: World<R>, e: Event<R>)
    requires Shape(w) && Enabled(w, e) && (w.guard.Storing? ==> w.guard.entry + 1 == |w.log|)
    ensures var x := Next(w, e);
      && x.log == (if e.BeginStore? then w.log + [e.record] else w.log)
      && x.acked == (if Acknowledges(w, e) then |w.log| else w.acked)
      && (Acknowledges(w, e) ==> x.guard.Idle?)
  {
  }

  /** How the `reserved` lock changes hands. */
  lemma {:induction false} GuardMoves<R>(w: World<R>, e: Event<R>)
    requires Shape(w) && Enabled(w, e)
    ensures var x := Next(w, e);
      && (x.guard.Storing? ==> e.BeginStore? || w.guard.Storing?)
      && (x.guard.Loading? ==> e.BeginLoad? || w.guard.Loading?)
      && (x.guard.Repairing? ==> w.guard.Loading? || w.guard.Repairing?)
      && (Returned(w, e).Some? ==> x.guard.Idle? && (w.guard.Loading? || w.guard.Repairing?))
  {
  }

  // ---- One undisturbed call is a run

  lemma {:induction false} AfterConcat<R>(w: World<R>, es: seq<Event<R>>, fs: seq<Event<R>>)
    requires Follows(w, es) && Follows(After(w, es), fs)
    ensures Follows(w, es + fs) && After(w, es + fs) == After(After(w, es), fs)
    decreases |es|
  {
    if |es| == 0 {
      assert es + fs == fs;
    } else {
      AfterConcat(Next(w, es[0]), es[1..], fs);
      assert (es + fs)[1..] == es[1..] + fs;
    }
  }

  ghost function View<R>(w: World<R>): Record<R> { Record(w.files, w.reserved, w.committed) }

  ghost predicate ActsAs<R>(w: World<R>, owner: Owner, faults: seq<WriteResult>) {
    Shape(w) && owner.nonce == w.nonce && owner.baseboard == w.baseboard
    && |owner.claimed| == |faults| == |w.files|
  }

  /** The writes of one commit, from slot `i` on, as the faults dictate. */
  ghost function CommitEvents<R>(owner: Owner, faults: seq<WriteResult>, i: nat): seq<Event<R>>
    requires i <= |owner.claimed| == |faults|
    decreases |faults| - i
  {
    if i == |faults| then [EndCommit]
    else match SlotResult(owner, faults, i)
      case Written => [WriteSlot] + CommitEvents(owner, faults, i + 1)
      case FailedKept => [FailWrite(false)]
      case FailedLanded => [FailWrite(true)]
  }

  /** What a commit that began in `w` leaves behind. */
  ghost predicate CommitLeaves<R>(w: World<R>, x: World<R>, owner: Owner, faults: seq<WriteResult>)
    requires ActsAs(w, owner, faults) && w.commit.Committing? && w.commit.next <= |w.files|
  {
    var k := FirstFailure(owner, faults, w.commit.next);
    var reached := if k < |faults| && SlotResult(owner, faults, k).FailedLanded? then k + 1 else k;
    && x.commit == NoCommit && x.reserved == w.reserved && x.log == w.log
    && x.nonce == w.nonce && x.baseboard == w.baseboard
    && x.guard == Release(w, w.commit.number).guard
    && |x.files| == |w.files|
    && (forall j :: 0 <= j < |w.files| ==>
          x.files[j] == if w.commit.next <= j < reached then Sealed(Current(w)) else w.files[j])
    && x.committed == (if k == |faults| then w.commit.number else w.committed)
    && x.acked == if k == |faults| && w.guard.Storing? && w.guard.number == w.commit.number
                  then w.guard.entry + 1 else w.acked
  }

  lemma {:induction false} OneFollows<R>(w: World<R>, e: Event<R>)
    requires Shape(w) && Enabled(w, e)
    ensures Follows(w, [e]) && After(w, [e]) == Next(w, e)
  {
    assert [e][1..] == [];
    assert Shape(Next(w, e));
  }

  lemma {:induction false} LeavesStep<R>(w: World<R>, x: World<R>, owner: Owner, faults: seq<WriteResult>)
    requires ActsAs(w, owner, faults) && w.commit.Committing? && w.commit.next < |w.files|
    requires SlotResult(owner, faults, w.commit.next).Written?
    requires CommitLeaves(Next(w, WriteSlot), x, owner, faults)
    ensures CommitLeaves(w, x, owner, faults)
  {
    assert Current(Next(w, WriteSlot)) == Current(w);
  }

  lemma {:induction false} LeavesEnd<R>(w: World<R>, e: Event<R>, owner: Owner, faults: seq<WriteResult>)
    requires ActsAs(w, owner, faults) && w.commit.Committing? && w.commit.next <= |w.files|
    requires w.commit.next < |w.files| ==> !SlotResult(owner, faults, w.commit.next).Written?
    requires [e] == CommitEvents<R>(owner, faults, w.commit.next)
    ensures Enabled(w, e) && CommitLeaves(w, Next(w, e), owner, faults)
  {
    assert e == [e][0] == CommitEvents<R>(owner, faults, w.commit.next)[0];
  }

  lemma {:induction false} CommitIsARun<R>(w: World<R>, owner: Owner, faults: seq<WriteResult>)
    requires ActsAs(w, owner, faults) && w.commit.Committing? && w.commit.next <= |w.files|
    ensures var es := CommitEvents<R>(owner, faults, w.commit.next);
      Follows(w, es) && CommitLeaves(w, After(w, es), owner, faults)
    decreases |w.files| - w.commit.next
  {
    var i := w.commit.next;
    var es := CommitEvents<R>(owner, faults, i);
    if i < |faults| && SlotResult(owner, faults, i).Written? {
      var x := Next(w, WriteSlot);
      var rest := CommitEvents<R>(owner, faults, i + 1);
      CommitIsARun(x, owner, faults);
      OneFollows(w, WriteSlot);
      AfterConcat(w, [WriteSlot], rest);
      LeavesStep(w, After(x, rest), owner, faults);
    } else {
      OneFollows(w, es[0]);
      LeavesEnd(w, es[0], owner, faults);
    }
  }

  /** Nothing but the steps of calls that are left to finish. */
  ghost predicate Undisturbed<R>(es: seq<Event<R>>) {
    forall i :: 0 <= i < |es| ==>
      !es[i].Cancel? && !es[i].Damage? && !es[i].Rollback? && !es[i].Restart?
  }

  /** Nothing but the steps of writers. */
  ghost predicate Writing<R>(es: seq<Event<R>>) {
    forall i :: 0 <= i < |es| ==> es[i].BeginCommit? || es[i].WriteSlot? || es[i].FailWrite? || es[i].EndCommit?
  }

  /** A waiting writer that nobody disturbs does what `Tenant.Commit` does, superseded
      or not, and its caller, if it stayed, has its answer. */
  lemma {:induction false} WriterIsARun<R>(w: World<R>, number: nat, owner: Owner, faults: seq<WriteResult>)
    returns (es: seq<Event<R>>, x: World<R>)
    requires ActsAs(w, owner, faults) && w.commit.NoCommit?
    requires number in w.waiting
    requires (w.guard.Storing? || w.guard.Repairing?) && w.guard.number == number
    ensures Undisturbed(es) && Writing(es) && Follows(w, es) && x == After(w, es)
    ensures var e := Envelope(w.nonce, number, w.baseboard, w.waiting[number]);
      var (t, result) := CommitEffect(View(w), owner, e, faults);
      && View(x) == t && x.guard.Idle? && x.commit.NoCommit? && x.log == w.log && ActsAs(x, owner, faults)
      && x.acked == if result.Stored? && w.guard.Storing? then w.guard.entry + 1 else w.acked
  {
    var begin: Event<R> := BeginCommit(number);
    OneFollows(w, begin);
    var c := Next(w, begin);
    if number <= w.committed {
      es, x := [begin], c;
      return;
    }
    CommitIsARun(c, owner, faults);
    CommitEventsAreUndisturbed<R>(owner, faults, 0);
    AfterConcat(w, [begin], CommitEvents<R>(owner, faults, 0));
    es := [begin] + CommitEvents<R>(owner, faults, 0);
    x := After(c, CommitEvents<R>(owner, faults, 0));
    var t := CommitEffect(View(w), owner, Current(c), faults).0;
    assert |x.files| == |t.files| && forall j :: 0 <= j < |w.files| ==> x.files[j] == t.files[j];
  }

  lemma {:induction false} CommitEventsAreUndisturbed<R>(owner: Owner, faults: seq<WriteResult>, i: nat)
    requires i <= |owner.claimed| == |faults|
    ensures Undisturbed(CommitEvents<R>(owner, faults, i)) && Writing(CommitEvents<R>(owner, faults, i))
    decreases |faults| - i
  {
    if i < |faults| {
      CommitEventsAreUndisturbed<R>(owner, faults, i + 1);
    }
  }

  /** `Tenant.Store` with nobody else at work is a run of the protocol: it ends
      in the same files and numbers, and acknowledges exactly when it says so. */
  lemma {:induction false} StoreIsARun<R>(w: World<R>, record: R, owner: Owner, faults: seq<WriteResult>)
    returns (es: seq<Event<R>>, x: World<R>)
    requires ActsAs(w, owner, faults) && |w.files| > 0
    requires w.guard.Idle? && w.commit.NoCommit? && w.committed <= w.reserved
    ensures Undisturbed(es) && Follows(w, es) && x == After(w, es)
    ensures var (t, result) := StoreEffect(View(w), owner, record, faults);
      && View(x) == t && x.guard.Idle? && x.commit.NoCommit?
      && x.log == w.log + [record]
      && x.acked == if result.Stored? then |x.log| else w.acked
  {
    var begin := BeginStore(record);
    OneFollows(w, begin);
    var rest;
    rest, x := WriterIsARun(Next(w, begin), w.reserved + 1, owner, faults);
    AfterConcat(w, [begin], rest);
    es := [begin] + rest;
  }

  ghost function Reads<R>(n: nat): seq<Event<R>> {
    seq(n, _ => ReadSlot)
  }

  lemma {:induction false} ReadingIsARun<R>(w: World<R>)
    requires Shape(w) && w.guard.Loading? && w.guard.seen <= w.files
    ensures var es := Reads<R>(|w.files| - |w.guard.seen|);
      Follows(w, es) && After(w, es) == w.(guard := After(w, es).guard)
      && After(w, es).guard.Loading? && After(w, es).guard.seen == w.files
    decreases |w.files| - |w.guard.seen|
  {
    var n := |w.files| - |w.guard.seen|;
    if n > 0 {
      var x := Next(w, ReadSlot);
      ReadingIsARun(x);
      OneFollows(w, ReadSlot);
      AfterConcat(w, [ReadSlot], Reads<R>(n - 1));
      assert [ReadSlot] + Reads<R>(n - 1) == Reads<R>(n);
    }
  }

  /** Reading every slot, with nobody else at work. */
  lemma {:induction false} LookingIsARun<R>(w: World<R>) returns (es: seq<Event<R>>, x: World<R>)
    requires Shape(w) && w.guard.Idle?
    ensures Undisturbed(es) && Follows(w, es) && x == After(w, es)
    ensures forall i :: 0 <= i < |es| ==> es[i].BeginLoad? || es[i].ReadSlot?
    ensures x == w.(guard := x.guard) && x.guard.Loading? && x.guard.seen == w.files
  {
    var looks := Reads<R>(|w.files|);
    OneFollows(w, BeginLoad);
    ReadingIsARun(Next(w, BeginLoad));
    AfterConcat(w, [BeginLoad], looks);
    es, x := [BeginLoad] + looks, After(Next(w, BeginLoad), looks);
  }

  /** Deciding either ends the load or leaves exactly its repair to be written. */
  lemma {:induction false} DecidingMatches<R>(w: World<R>, owner: Owner, faults: seq<WriteResult>)
    requires ActsAs(w, owner, faults) && w.committed <= w.reserved
    requires w.guard.Loading? && w.guard.seen == w.files
    ensures var d := Next(w, Decide);
      var t := LoadEffect(View(w), owner, faults).0;
      if d.guard.Repairing? then
        && d.reserved in d.waiting && d.committed < d.reserved == d.guard.number
        && CommitEffect(View(d), owner, Envelope(d.nonce, d.reserved, d.baseboard, d.waiting[d.reserved]), faults).0 == t
      else d.guard.Idle? && View(d) == t
    ensures var d := Next(w, Decide);
      d.commit == w.commit && d.log == w.log && d.acked == w.acked && ActsAs(d, owner, faults)
  {
  }

  /** `Tenant.Load` with nobody else at work is a run of the protocol that ends
      in the same files and numbers. */
  lemma {:induction false} LoadIsARun<R>(w: World<R>, owner: Owner, faults: seq<WriteResult>)
    returns (es: seq<Event<R>>, x: World<R>)
    requires ActsAs(w, owner, faults)
    requires w.guard.Idle? && w.commit.NoCommit? && w.committed <= w.reserved
    ensures Undisturbed(es) && Follows(w, es) && x == After(w, es)
    ensures View(x) == LoadEffect(View(w), owner, faults).0
      && x.guard.Idle? && x.commit.NoCommit? && x.log == w.log && x.acked == w.acked
  {
    var looks, c := LookingIsARun(w);
    DecidingMatches(c, owner, faults);
    OneFollows(c, Decide);
    AfterConcat(w, looks, [Decide]);
    es, x := looks + [Decide], Next(c, Decide);
    if x.guard.Repairing? {
      var rest, y := WriterIsARun(x, x.reserved, owner, faults);
      AfterConcat(w, es, rest);
      es, x := es + rest, y;
    }
  }

  // ---- What the guarantee does not say

  ghost predicate Reaches<R>(w: World<R>, es: seq<Event<R>>, x: World<R>) {
    Follows(w, es) && After(w, es) == x
  }

  lemma {:induction false} Extend<R>(w: World<R>, es: seq<Event<R>>, x: World<R>, e: Event<R>) returns (fs: seq<Event<R>>)
    requires Reaches(w, es, x) && Enabled(x, e)
    ensures es <= fs && |fs| == |es| + 1 && fs[|es|] == e
    ensures Reaches(w, fs, Next(x, e))
  {
    OneFollows(x, e);
    AfterConcat(w, es, [e]);
    fs := es + [e];
  }

  ghost predicate LoneSlot(x: World<nat>, e: Envelope<nat>) {
    Shape(x) && x.guard.Idle? && x.files == [Sealed(e)] && e.baseboard == x.baseboard
  }

  /** Loading from a single intact slot adopts what it holds and writes nothing. */
  lemma {:induction false} LoneLoad(w: World<nat>, es: seq<Event<nat>>, x: World<nat>, e: Envelope<nat>)
    returns (fs: seq<Event<nat>>, y: World<nat>)
    requires Reaches(w, es, x) && LoneSlot(x, e) && e.number <= x.reserved
    ensures es <= fs && (forall i :: |es| <= i < |fs| ==> fs[i].BeginLoad? || fs[i].ReadSlot?)
    ensures Reaches(w, fs, y) && Enabled(y, Decide)
    ensures Returned(y, Decide) == Some(Adopt(e.record))
    ensures y == x.(guard := y.guard) && Next(y, Decide) == x
  {
    fs := Extend(w, es, x, BeginLoad);
    y := Next(x, BeginLoad);
    fs := Extend(w, fs, y, ReadSlot);
    y := Next(y, ReadSlot);
    assert y.guard.seen == [Sealed(e)];
    UniformSlotsAdopt(y.guard.seen, y.baseboard, e.record);
    ScanOfFull(y.guard.seen, y.baseboard, 0);
    assert x.(guard := Idle) == x;
  }

  ghost predicate Lone(x: World<nat>) {
    Shape(x) && |x.files| == 1 && x.guard.Idle? && x.commit.NoCommit?
  }

  lemma {:induction false} LoneStore(w: World<nat>, es: seq<Event<nat>>, x: World<nat>, record: nat)
    returns (fs: seq<Event<nat>>, y: World<nat>)
    requires Reaches(w, es, x) && Lone(x) && x.committed <= x.reserved
    ensures Reaches(w, fs, y) && Lone(y) && y.committed == y.reserved == x.reserved + 1
    ensures var file := Sealed(Envelope(x.nonce, x.reserved + 1, x.baseboard, record));
      y.files == [file] && y.past == [x.past[0] + [file]]
    ensures y.nonce == x.nonce && y.baseboard == x.baseboard
    ensures y.log == x.log + [record] && y.acked == |y.log|
  {
    var b := Next(x, BeginStore(record));
    var c := Next(b, BeginCommit(x.reserved + 1));
    var d := Next(c, WriteSlot);
    fs := Extend(w, es, x, BeginStore(record));
    fs := Extend(w, fs, b, BeginCommit(x.reserved + 1));
    fs := Extend(w, fs, c, WriteSlot);
    fs := Extend(w, fs, d, EndCommit);
    y := Next(d, EndCommit);
  }

  /** The trust in one slot is needed: when the only slot is rolled back, a load
      returns a record that a later store, since acknowledged, replaced. */
  lemma {:induction false} RolledBackAloneIsStale() returns (w: World<nat>, es: seq<Event<nat>>)
    ensures Init(w) && Follows(w, es) && Enabled(After(w, es), Decide)
    ensures Returned(After(w, es), Decide) == Some(Adopt(1))
    ensures !NewEnough(After(w, es), 1)
  {
    w := OneSlot(7);
    var x, y;
    es, x := LoneStore(w, [], w, 1);
    es, y := LoneStore(w, es, x, 2);
    var z := Next(y, Rollback(0, 0));
    es := Extend(w, es, y, Rollback(0, 0));
    es, x := LoneLoad(w, es, z, Envelope(7, 1, 0, 1));
    assert x.log == [1, 2] && x.acked == 2;
  }

  ghost predicate Calm(es: seq<Event<nat>>) {
    forall i :: 0 <= i < |es| ==> !es[i].Rollback? && !es[i].Damage? && !es[i].Restart?
  }

  lemma {:induction false} AbandonedStore(w: World<nat>, es: seq<Event<nat>>, x: World<nat>, record: nat)
    returns (fs: seq<Event<nat>>, y: World<nat>)
    requires Reaches(w, es, x) && Lone(x) && Calm(es)
    ensures Reaches(w, fs, y) && Lone(y) && Calm(fs)
    ensures y.files == x.files && y.nonce == x.nonce && y.baseboard == x.baseboard
    ensures y.reserved == x.reserved + 1 && y.committed == x.committed
    ensures y.waiting == x.waiting[x.reserved + 1 := record] && y.log == x.log + [record]
  {
    var b := Next(x, BeginStore(record));
    fs := Extend(w, es, x, BeginStore(record));
    fs := Extend(w, fs, b, Cancel);
    y := Next(b, Cancel);
  }

  /** The writer of an abandoned store begins, and its only write lands whether
      or not it is reported to have failed. */
  lemma {:induction false} LateWriter(w: World<nat>, es: seq<Event<nat>>, x: World<nat>, number: nat, fails: bool)
    returns (fs: seq<Event<nat>>, y: World<nat>)
    requires Reaches(w, es, x) && Lone(x) && Calm(es) && number in x.waiting && x.committed < number
    ensures Reaches(w, fs, y) && Lone(y) && Calm(fs) && es <= fs
    ensures y.files == [Sealed(Envelope(x.nonce, number, x.baseboard, x.waiting[number]))]
    ensures y.reserved == x.reserved && y.nonce == x.nonce && y.baseboard == x.baseboard
    ensures y.committed == (if fails then x.committed else number)
    ensures y.waiting == x.waiting - {number} && y.log == x.log
  {
    var b := Next(x, BeginCommit(number));
    fs := Extend(w, es, x, BeginCommit(number));
    if fails {
      fs := Extend(w, fs, b, FailWrite(true));
      y := Next(b, FailWrite(true));
    } else {
      var c := Next(b, WriteSlot);
      fs := Extend(w, fs, b, WriteSlot);
      fs := Extend(w, fs, c, EndCommit);
      y := Next(c, EndCommit);
    }
  }

  /** A load that returns 2, whose store failed, while the abandoned writer of 1
      is still to come. */
  lemma {:induction false} UnacknowledgedIsLoaded() returns (w: World<nat>, es: seq<Event<nat>>, y: World<nat>, x: World<nat>)
    ensures Init(w) && Reaches(w, es, y) && Calm(es)
    ensures Enabled(y, Decide) && Returned(y, Decide) == Some(Adopt(2)) && y.log == [1, 2]
    ensures Next(y, Decide) == x && Lone(x) && x.log == [1, 2]
    ensures x.nonce == 7 && x.baseboard == 0 && x.reserved == 2 && x.committed == 0
    ensures 1 in x.waiting && x.waiting[1] == 1
  {
    w := OneSlot(7);
    es, x := AbandonedStore(w, [], w, 1);
    es, x := AbandonedStore(w, es, x, 2);
    es, x := LateWriter(w, es, x, 2, true);
    es, y := LoneLoad(w, es, x, Envelope(7, 2, 0, 2));
  }

  /** Successive loads are not monotone: with no slot rolled back, one load may
      return a record that was never acknowledged and the next an older one. */
  lemma {:induction false} LoadsMayRegress() returns (w: World<nat>, es: seq<Event<nat>>, fs: seq<Event<nat>>)
    ensures Init(w) && Follows(w, es) && Follows(w, fs) && es < fs && fs[|es|] == Decide && Calm(fs)
    ensures After(w, es).log == After(w, fs).log == [1, 2]
    ensures Enabled(After(w, es), Decide) && Returned(After(w, es), Decide) == Some(Adopt(2))
    ensures Enabled(After(w, fs), Decide) && Returned(After(w, fs), Decide) == Some(Adopt(1))
  {
    var x, y, z;
    w, es, y, x := UnacknowledgedIsLoaded();
    fs := Extend(w, es, y, Decide);
    fs, x := LateWriter(w, fs, x, 1, false);
    fs, z := LoneLoad(w, fs, x, Envelope(7, 1, 0, 1));
  }

  ghost function OneSlot(nonce: nat): World<nat> {
    World(0, [Missing], [false], [[]], nonce, {nonce}, 0, 0, map[], NoCommit, Idle, map[], {}, [], 0)
  }
}
