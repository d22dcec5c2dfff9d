/** One record kept in several slot directories (server/src/locker.rs).

A store writes every slot in order; a load reads every slot, applies the rules
of the module documentation to what it found, and repairs the slots when they
are incomplete or torn. One slot write is atomic. The envelope's byte format is
the subject of module `EnvelopeCodec`; here an envelope is a value. */
module Locker {

  datatype Envelope<R> = Envelope(nonce: nat, number: nat, baseboard: nat, record: R)

  /** What reading one slot finds: no file, an I/O error, a file that does not
      decode, or a decoded envelope. */
  datatype SlotFile<R> = Missing | Unreadable | Corrupt | Sealed(envelope: Envelope<R>)

  datatype Reason = Disagree | Foreign(slot: nat) | Damaged(slot: nat) | Io(slot: nat)

  datatype Verdict<R> = Adopt(record: R) | Restore(record: R) | Empty | Discard(reason: Reason) {
    predicate HasRecord() { Adopt? || Restore? }
  }

  datatype Scan<R> = Found(envelopes: seq<Envelope<R>>) | Bad(reason: Reason)

  /** How one slot write ends. A reported failure may leave the old file or,
      when the failure comes after the rename, the new one. */
  datatype WriteResult = Written | FailedKept | FailedLanded

  datatype StoreResult = Stored | IoError(slot: nat) | Superseded

  /** This sled's view of one tenant: the slot files, and the two halves of the
      sequence number. */
  datatype Record<R> = Record(files: seq<SlotFile<R>>, reserved: nat, committed: nat)

  /** The sled and life a tenant writes as, and the slots it could claim. */
  datatype Owner = Owner(nonce: nat, baseboard: nat, claimed: seq<bool>)

  // ---- Reading the slots

  function ScanFrom<R>(files: seq<SlotFile<R>>, baseboard: nat, from: nat): (r: Scan<R>)
    requires from <= |files|
    ensures r.Found? ==> |r.envelopes| <= |files| - from
    decreases |files| - from
  {
    if from == |files| then Found([])
    else match files[from]
      case Missing => ScanFrom(files, baseboard, from + 1)
      case Unreadable => Bad(Io(from))
      case Corrupt => Bad(Damaged(from))
      case Sealed(e) =>
        if e.baseboard != baseboard then Bad(Foreign(from))
        else match ScanFrom(files, baseboard, from + 1)
          case Bad(reason) => Bad(reason)
          case Found(rest) => Found([e] + rest)
  }

  predicate AllEqual<R(==)>(found: seq<Envelope<R>>) {
    forall i :: 0 <= i < |found| ==> found[i].record == found[0].record
  }

  /** The position of the newest envelope, when one process wrote them all and
      no two share the highest sequence number. */
  ghost predicate IsNewest<R>(found: seq<Envelope<R>>, i: nat) {
    && i < |found|
    && (forall j :: 0 <= j < |found| ==> found[j].nonce == found[i].nonce)
    && (forall j :: 0 <= j < |found| && j != i ==> found[j].number < found[i].number)
  }

  ghost predicate Torn<R>(found: seq<Envelope<R>>) {
    exists i: nat :: IsNewest(found, i)
  }

  /** The verdict on what a scan found in `slots` slots. */
  ghost function Judge<R>(found: seq<Envelope<R>>, slots: nat): Verdict<R> {
    if |found| == 0 then Empty
    else if AllEqual(found) then
      if |found| < slots then Restore(found[0].record) else Adopt(found[0].record)
    else if Torn(found) then
      var i: nat :| IsNewest(found, i);
      Adopt(found[i].record)
    else Discard(Disagree)
  }

  ghost function VerdictOn<R>(files: seq<SlotFile<R>>, baseboard: nat): Verdict<R> {
    match ScanFrom(files, baseboard, 0)
    case Bad(reason) => Discard(reason)
    case Found(found) => Judge(found, |files|)
  }

  lemma {:induction false} NewestIsUnique<R>(found: seq<Envelope<R>>, i: nat, j: nat)
    requires IsNewest(found, i) && IsNewest(found, j)
    ensures i == j
  {
    var a, b := found[i], found[j];
    assert i != j ==> a.number < b.number && b.number < a.number;
  }

  // ---- Facts about a scan

  predicate Own<R>(file: SlotFile<R>, baseboard: nat) {
    file.Sealed? && file.envelope.baseboard == baseboard
  }

  predicate Harmless<R>(file: SlotFile<R>, baseboard: nat) {
    file.Missing? || Own(file, baseboard)
  }

  /** Some slot at or after `from` holds `e`. */
  ghost predicate Holds<R>(files: seq<SlotFile<R>>, from: nat, e: Envelope<R>) {
    exists i: nat :: from <= i < |files| && files[i] == Sealed(e)
  }

  /** A scan succeeds exactly when every slot is missing or ours, and then finds
      the envelopes of the slots that are not missing, no more and no fewer. */
  lemma {:induction false} ScanFinds<R>(files: seq<SlotFile<R>>, baseboard: nat, from: nat)
    requires from <= |files|
    ensures ScanFrom(files, baseboard, from).Found? <==>
            forall i :: from <= i < |files| ==> Harmless(files[i], baseboard)
    ensures var r := ScanFrom(files, baseboard, from);
            r.Found? ==>
              && (forall e :: e in r.envelopes <==> Holds(files, from, e))
              && (|r.envelopes| == |files| - from <==>
                  forall i :: from <= i < |files| ==> files[i].Sealed?)
    decreases |files| - from
  {
    if from < |files| {
      ScanFinds(files, baseboard, from + 1);
      var r := ScanFrom(files, baseboard, from);
      var tail := ScanFrom(files, baseboard, from + 1);
      if r.Found? {
        forall e ensures Holds(files, from, e) <==> files[from] == Sealed(e) || Holds(files, from + 1, e) {}
        forall e ensures e in r.envelopes <==> files[from] == Sealed(e) || e in tail.envelopes {}
      }
    }
  }

  /** Every record a load returns was read from one of the slots. */
  lemma {:induction false} VerdictComesFromASlot<R>(files: seq<SlotFile<R>>, baseboard: nat)
    ensures var v := VerdictOn(files, baseboard);
            v.HasRecord() ==>
              && (forall i :: 0 <= i < |files| ==> Harmless(files[i], baseboard))
              && exists i :: 0 <= i < |files| && Own(files[i], baseboard)
                             && files[i].envelope.record == v.record
  {
    ScanFinds(files, baseboard, 0);
    var v := VerdictOn(files, baseboard);
    if v.HasRecord() {
      var found := ScanFrom(files, baseboard, 0).envelopes;
      var k: nat :| k < |found| && found[k].record == v.record;
      assert found[k] in found && Holds(files, 0, found[k]);
      var i: nat :| i < |files| && files[i] == Sealed(found[k]);
      assert Harmless(files[i], baseboard);
      assert Own(files[i], baseboard) && files[i].envelope.record == v.record;
    }
  }

  /** Slots that all hold the same record of ours are adopted. */
  lemma {:induction false} UniformSlotsAdopt<R>(files: seq<SlotFile<R>>, baseboard: nat, record: R)
    requires |files| > 0
    requires forall i :: 0 <= i < |files| ==> Own(files[i], baseboard) && files[i].envelope.record == record
    ensures VerdictOn(files, baseboard) == Adopt(record)
  {
    ScanFinds(files, baseboard, 0);
    var found := ScanFrom(files, baseboard, 0).envelopes;
    forall i | 0 <= i < |found| ensures found[i].record == record {
      assert found[i] in found && Holds(files, 0, found[i]);
    }
  }

  /** The pair rules of the module documentation, for any two readable slots. */
  lemma {:induction false} PairRules<R>(a: SlotFile<R>, b: SlotFile<R>, baseboard: nat)
    ensures var v := VerdictOn([a, b], baseboard);
      if !Harmless(a, baseboard) || !Harmless(b, baseboard) then
        v.Discard? && !v.reason.Disagree?
      else if a.Missing? && b.Missing? then v == Empty
      else if b.Missing? then v == Restore(a.envelope.record)
      else if a.Missing? then v == Restore(b.envelope.record)
      else
        var x, y := a.envelope, b.envelope;
        if x.record == y.record then v == Adopt(x.record)
        else if x.nonce == y.nonce && x.number < y.number then v == Adopt(y.record)
        else if x.nonce == y.nonce && y.number < x.number then v == Adopt(x.record)
        else v == Discard(Disagree)
  {
    var files := [a, b];
    assert ScanFrom(files, baseboard, 2) == Found([]);
    var one := ScanFrom(files, baseboard, 1);
    var all := ScanFrom(files, baseboard, 0);
    if a.Sealed? && b.Sealed? && Harmless(a, baseboard) && Harmless(b, baseboard) {
      var x, y := a.envelope, b.envelope;
      assert all.envelopes == [x, y];
      if x.record != y.record {
        assert all.envelopes[1].record != all.envelopes[0].record;
        if x.nonce == y.nonce && x.number < y.number { assert IsNewest(all.envelopes, 1); }
        if x.nonce == y.nonce && y.number < x.number { assert IsNewest(all.envelopes, 0); }
      }
    }
  }

  // ---- The test the code makes for a torn record

  /** The last position with the highest sequence number. */
  function Highest<R>(found: seq<Envelope<R>>): (i: nat)
    requires |found| > 0
    ensures i < |found|
    ensures forall j :: 0 <= j < |found| ==> found[j].number <= found[i].number
    ensures forall j :: i < j < |found| ==> found[j].number < found[i].number
  {
    if |found| == 1 then 0
    else
      var rest := Highest(found[..|found| - 1]);
      if found[|found| - 1].number >= found[rest].number then |found| - 1 else rest
  }

  function Copies<R>(found: seq<Envelope<R>>, number: nat): (n: nat) {
    if |found| == 0 then 0
    else (if found[0].number == number then 1 else 0) + Copies(found[1..], number)
  }

  lemma {:induction false} CopiesAreOccurrences<R>(found: seq<Envelope<R>>, number: nat)
    ensures Copies(found, number) == 0 <==> forall j :: 0 <= j < |found| ==> found[j].number != number
    ensures Copies(found, number) == 1 ==>
              exists i :: 0 <= i < |found| && found[i].number == number
                && forall j :: 0 <= j < |found| && j != i ==> found[j].number != number
    ensures Copies(found, number) > 1 ==>
              exists i, j :: 0 <= i < j < |found| && found[i].number == number && found[j].number == number
  {
    if |found| > 0 {
      var rest := found[1..];
      CopiesAreOccurrences(rest, number);
      assert forall j :: 1 <= j < |found| ==> found[j] == rest[j - 1];
      if Copies(rest, number) == 1 {
        var i :| 0 <= i < |rest| && rest[i].number == number
                 && forall j :: 0 <= j < |rest| && j != i ==> rest[j].number != number;
        assert found[i + 1].number == number;
      } else if Copies(rest, number) > 1 {
        var i, j :| 0 <= i < j < |rest| && rest[i].number == number && rest[j].number == number;
        assert found[i + 1].number == number && found[j + 1].number == number;
      }
    }
  }

  /** One nonce throughout and one copy of the highest number is the same as
      having a unique newest envelope, and the highest is that one. */
  lemma {:induction false} TornTest<R>(found: seq<Envelope<R>>)
    requires |found| > 0
    ensures var top := Highest(found);
      var test := (forall j :: 0 <= j < |found| ==> found[j].nonce == found[top].nonce)
                  && Copies(found, found[top].number) == 1;
      (test <==> Torn(found)) && (test ==> IsNewest(found, top))
  {
    var top := Highest(found);
    var number := found[top].number;
    CopiesAreOccurrences(found, number);
    if Torn(found) {
      var i: nat :| IsNewest(found, i);
      assert i == top by { assert found[i].number <= number; }
      assert forall j, k :: 0 <= j < k < |found| && found[j].number == number ==> found[k].number != number;
    }
    if Copies(found, number) == 1 {
      assert forall j :: 0 <= j < |found| && j != top ==> found[j].number != number;
      if forall j :: 0 <= j < |found| ==> found[j].nonce == found[top].nonce {
        assert IsNewest(found, top);
      }
    }
  }

  // ---- Storing

  /** How writing slot `i` ends: an unclaimed slot is never written. */
  function SlotResult(owner: Owner, faults: seq<WriteResult>, i: nat): WriteResult
    requires i < |owner.claimed| == |faults|
  {
    if owner.claimed[i] then faults[i] else FailedKept
  }

  /** The first slot from `i` on whose write fails, or the number of slots. */
  function FirstFailure(owner: Owner, faults: seq<WriteResult>, i: nat): (k: nat)
    requires i <= |owner.claimed| == |faults|
    ensures i <= k <= |faults|
    ensures forall j :: i <= j < k ==> SlotResult(owner, faults, j).Written?
    ensures k < |faults| ==> !SlotResult(owner, faults, k).Written?
    decreases |faults| - i
  {
    if i == |faults| || !SlotResult(owner, faults, i).Written? then i
    else FirstFailure(owner, faults, i + 1)
  }

  /** The first `k` slots hold `e`; the others are as before. */
  function Overwritten<R>(files: seq<SlotFile<R>>, e: Envelope<R>, k: nat): (r: seq<SlotFile<R>>)
    requires k <= |files|
  {
    seq(k, _ => Sealed(e)) + files[k..]
  }

  ghost function CommitEffect<R>(t: Record<R>, owner: Owner, e: Envelope<R>, faults: seq<WriteResult>)
    : (Record<R>, StoreResult)
    requires |t.files| == |owner.claimed| == |faults|
  {
    if e.number <= t.committed then (t, Superseded)
    else
      var k := FirstFailure(owner, faults, 0);
      if k == |faults| then
        (t.(files := Overwritten(t.files, e, k), committed := e.number), Stored)
      else
        var reached := if SlotResult(owner, faults, k).FailedLanded? then k + 1 else k;
        (t.(files := Overwritten(t.files, e, reached)), IoError(k))
  }

  ghost function StoreEffect<R>(t: Record<R>, owner: Owner, record: R, faults: seq<WriteResult>)
    : (Record<R>, StoreResult)
    requires |t.files| == |owner.claimed| == |faults|
  {
    if |t.files| == 0 then (t, Stored)
    else
      var number := t.reserved + 1;
      CommitEffect(t.(reserved := number), owner,
                   Envelope(owner.nonce, number, owner.baseboard, record), faults)
  }

  /** A load raises the reserved number to the highest it found. */
  ghost function Raised<R>(reserved: nat, found: seq<Envelope<R>>): (r: nat)
    requires |found| > 0
    ensures r >= reserved
  {
    var top := found[Highest(found)].number;
    if top > reserved then top else reserved
  }

  /** Whether a load writes back the record it returns. */
  ghost predicate Repairs<R>(found: seq<Envelope<R>>, slots: nat) {
    |found| > 0 && Judge(found, slots).HasRecord() && (|found| < slots || !AllEqual(found))
  }

  ghost function LoadEffect<R>(t: Record<R>, owner: Owner, faults: seq<WriteResult>)
    : (Record<R>, Verdict<R>)
    requires |t.files| == |owner.claimed| == |faults|
  {
    match ScanFrom(t.files, owner.baseboard, 0)
    case Bad(reason) => (t, Discard(reason))
    case Found(found) =>
      var v := Judge(found, |t.files|);
      if !v.HasRecord() then (t, v)
      else
        var raised := t.(reserved := Raised(t.reserved, found));
        if Repairs(found, |t.files|) then (StoreEffect(raised, owner, v.record, faults).0, v)
        else (raised, v)
  }

  // ---- The numbers a load leaves

  /** Every slot is ours and holds the same record. */
  ghost predicate Uniform<R>(files: seq<SlotFile<R>>, baseboard: nat) {
    && (forall i :: 0 <= i < |files| ==> Own(files[i], baseboard))
    && forall i, j :: 0 <= i < j < |files| ==> files[i].envelope.record == files[j].envelope.record
  }

  ghost predicate NumberOf<R>(files: seq<SlotFile<R>>, baseboard: nat, number: nat) {
    exists i :: 0 <= i < |files| && Own(files[i], baseboard) && files[i].envelope.number == number
  }

  /** `number` is the reserved one or the highest of ours in the slots, whichever is
      more. */
  ghost predicate HighestHeard<R>(t: Record<R>, baseboard: nat, number: nat) {
    && t.reserved <= number
    && (forall i :: 0 <= i < |t.files| && Own(t.files[i], baseboard) ==> t.files[i].envelope.number <= number)
    && (number == t.reserved || NumberOf(t.files, baseboard, number))
  }

  lemma {:induction false} RaisedIsHighest<R>(t: Record<R>, baseboard: nat)
    requires ScanFrom(t.files, baseboard, 0).Found? && |ScanFrom(t.files, baseboard, 0).envelopes| > 0
    ensures HighestHeard(t, baseboard, Raised(t.reserved, ScanFrom(t.files, baseboard, 0).envelopes))
  {
    ScanFinds(t.files, baseboard, 0);
    var found := ScanFrom(t.files, baseboard, 0).envelopes;
    forall i | 0 <= i < |t.files| && Own(t.files[i], baseboard)
      ensures t.files[i].envelope.number <= Raised(t.reserved, found)
    {
      assert Holds(t.files, 0, t.files[i].envelope) && t.files[i].envelope in found;
    }
    var top := found[Highest(found)];
    assert top in found && Holds(t.files, 0, top);
    var i: nat :| i < |t.files| && t.files[i] == Sealed(top);
    assert Harmless(t.files[i], baseboard);
  }

  lemma {:induction false} UniformNeedsNoRepair<R>(files: seq<SlotFile<R>>, baseboard: nat)
    requires ScanFrom(files, baseboard, 0).Found? && VerdictOn(files, baseboard).HasRecord()
    ensures Repairs(ScanFrom(files, baseboard, 0).envelopes, |files|) <==> !Uniform(files, baseboard)
  {
    ScanFinds(files, baseboard, 0);
    var found := ScanFrom(files, baseboard, 0).envelopes;
    forall i | 0 <= i < |files| && files[i].Sealed?
      ensures files[i].envelope in found
    {
      assert Holds(files, 0, files[i].envelope);
    }
    forall k | 0 <= k < |found|
      ensures exists i :: 0 <= i < |files| && files[i] == Sealed(found[k])
    {
      assert found[k] in found && Holds(files, 0, found[k]);
    }
    if Uniform(files, baseboard) {
      forall k | 0 <= k < |found|
        ensures found[k].record == found[0].record
      {
        var i :| 0 <= i < |files| && files[i] == Sealed(found[k]);
        var j :| 0 <= j < |files| && files[j] == Sealed(found[0]);
      }
    }
    if |found| == |files| && AllEqual(found) {
      forall i | 0 <= i < |files|
        ensures Own(files[i], baseboard)
      {
        assert Harmless(files[i], baseboard);
      }
    }
  }

  /** A load without a record changes nothing. One with a record has heard the
      highest number of ours in the slots: it reserves that number, and the next one
      for its repair if the slots were not uniform. */
  lemma {:induction false} LoadHearsNumbers<R>(t: Record<R>, owner: Owner, faults: seq<WriteResult>)
    requires |t.files| == |owner.claimed| == |faults|
    ensures var (after, v) := LoadEffect(t, owner, faults);
      if !v.HasRecord() then after == t
      else if Uniform(t.files, owner.baseboard) then
        after.files == t.files && after.committed == t.committed && HighestHeard(t, owner.baseboard, after.reserved)
      else after.reserved > 0 && HighestHeard(t, owner.baseboard, after.reserved - 1)
  {
    if LoadEffect(t, owner, faults).1.HasRecord() {
      UniformNeedsNoRepair(t.files, owner.baseboard);
      RaisedIsHighest(t, owner.baseboard);
    }
  }

  /** What a store writes after a load carries a higher number than anything of ours
      that the load read. */
  lemma {:induction false} StoreOutnumbersLoad<R>(t: Record<R>, owner: Owner, faults: seq<WriteResult>,
                                                  record: R, later: seq<WriteResult>)
    requires |t.files| == |owner.claimed| == |faults| == |later| && WellNumbered(t)
    requires LoadEffect(t, owner, faults).1.HasRecord()
    ensures var loaded := LoadEffect(t, owner, faults).0;
      var stored := StoreEffect(loaded, owner, record, later).0;
      && |stored.files| == |loaded.files|
      && forall j :: 0 <= j < |stored.files| && stored.files[j] != loaded.files[j] ==>
           && stored.files[j].Sealed? && stored.files[j].envelope.record == record
           && forall i :: 0 <= i < |t.files| && Own(t.files[i], owner.baseboard) ==>
                t.files[i].envelope.number < stored.files[j].envelope.number
  {
    LoadHearsNumbers(t, owner, faults);
  }

  // ---- Repair converges

  ghost predicate WellNumbered<R>(t: Record<R>) {
    t.committed <= t.reserved
  }

  ghost predicate NoFaults(owner: Owner, faults: seq<WriteResult>)
    requires |owner.claimed| == |faults|
  {
    forall i :: 0 <= i < |faults| ==> SlotResult(owner, faults, i).Written?
  }

  lemma {:induction false} StoreWithoutFaults<R>(t: Record<R>, owner: Owner, record: R, faults: seq<WriteResult>)
    requires |t.files| == |owner.claimed| == |faults| > 0
    requires WellNumbered(t) && NoFaults(owner, faults)
    ensures var (after, result) := StoreEffect(t, owner, record, faults);
      && result == Stored
      && WellNumbered(after) && after.committed == after.reserved == t.reserved + 1
      && |after.files| == |t.files|
      && forall i :: 0 <= i < |t.files| ==>
           after.files[i] == Sealed(Envelope(owner.nonce, t.reserved + 1, owner.baseboard, record))
  {
  }

  /** With every slot claimed and no write failing, a load that returns a record
      leaves that record in every slot, and the next load adopts it. */
  lemma {:induction false} RepairConverges<R>(t: Record<R>, owner: Owner, faults: seq<WriteResult>, later: seq<WriteResult>)
    requires |t.files| == |owner.claimed| == |faults| == |later|
    requires WellNumbered(t) && NoFaults(owner, faults)
    requires LoadEffect(t, owner, faults).1.HasRecord()
    ensures var (after, v) := LoadEffect(t, owner, faults);
      && |after.files| == |t.files|
      && (forall i :: 0 <= i < |after.files| ==>
            Own(after.files[i], owner.baseboard) && after.files[i].envelope.record == v.record)
      && LoadEffect(after, owner, later).1 == Adopt(v.record)
      && LoadEffect(after, owner, later).0.files == after.files
  {
    var (after, v) := LoadEffect(t, owner, faults);
    ScanFinds(t.files, owner.baseboard, 0);
    var found := ScanFrom(t.files, owner.baseboard, 0).envelopes;
    var raised := t.(reserved := Raised(t.reserved, found));
    if Repairs(found, |t.files|) {
      StoreWithoutFaults(raised, owner, v.record, faults);
    } else {
      forall i | 0 <= i < |t.files|
        ensures Own(t.files[i], owner.baseboard) && t.files[i].envelope.record == v.record
      {
        assert Harmless(t.files[i], owner.baseboard);
        assert Holds(t.files, 0, t.files[i].envelope);
        assert t.files[i].envelope in found;
      }
    }
    UniformSlotsAdopt(after.files, owner.baseboard, v.record);
    ScanFinds(after.files, owner.baseboard, 0);
    var again := ScanFrom(after.files, owner.baseboard, 0).envelopes;
    assert AllEqual(again) && |again| == |after.files| by {
      forall k | 0 <= k < |again| ensures again[k].record == v.record {
        assert again[k] in again && Holds(after.files, 0, again[k]);
      }
    }
  }

  // ---- A crash in the middle of a commit

  /** After a commit that stopped once `k` of the slots held the new record, a
      load adopts the new record exactly when one slot or all of them have it. */
  lemma {:induction false} TornCommitVerdict<R>(old': Envelope<R>, new': Envelope<R>, slots: nat, k: nat)
    requires 0 < slots && k <= slots
    requires old'.nonce == new'.nonce && old'.baseboard == new'.baseboard
    requires old'.number < new'.number && old'.record != new'.record
    ensures var files := Overwritten(seq(slots, _ => Sealed(old')), new', k);
      VerdictOn(files, new'.baseboard) ==
        if k == 0 then Adopt(old'.record)
        else if k == 1 || k == slots then Adopt(new'.record)
        else Discard(Disagree)
  {
    var before: seq<SlotFile<R>> := seq(slots, _ => Sealed(old'));
    var files := Overwritten(before, new', k);
    ScanOfFull(files, new'.baseboard, 0);
    var found := ScanFrom(files, new'.baseboard, 0).envelopes;
    assert forall i :: 0 <= i < slots ==> files[i] == Sealed(if i < k then new' else old');
    assert forall i :: 0 <= i < slots ==> found[i] == if i < k then new' else old';
    if 0 < k < slots {
      assert found[0].record != found[slots - 1].record;
      if k == 1 {
        assert IsNewest(found, 0);
      } else {
        forall i: nat ensures !IsNewest(found, i) {
          var other := if i == 0 then 1 else 0;
          assert i < |found| ==> found[i].number <= found[other].number;
        }
      }
    }
  }

  lemma {:induction false} ScanOfFull<R>(files: seq<SlotFile<R>>, baseboard: nat, from: nat)
    requires from <= |files|
    requires forall i :: 0 <= i < |files| ==> Own(files[i], baseboard)
    ensures var r := ScanFrom(files, baseboard, from);
      r.Found? && |r.envelopes| == |files| - from
      && forall i :: 0 <= i < |r.envelopes| ==> Sealed(r.envelopes[i]) == files[from + i]
    decreases |files| - from
  {
    if from < |files| {
      ScanOfFull(files, baseboard, from + 1);
    }
  }

  // ---- The tenant

  class Tenant<R(==)> {
    const owner: Owner
    var files: seq<SlotFile<R>>
    var reserved: nat
    var committed: nat

    ghost predicate Valid()
      reads this
    {
      |files| == |owner.claimed| && committed <= reserved
    }

    ghost function View(): Record<R>
      reads this
    {
      Record(files, reserved, committed)
    }

    /** A tenant of a new locker, over whatever the slots already hold. */
    constructor (owner: Owner, found: seq<SlotFile<R>>)
      requires |found| == |owner.claimed|
      ensures Valid() && this.owner == owner && View() == Record(found, 0, 0)
    {
      this.owner := owner;
      files := found;
      reserved, committed := 0, 0;
    }

    method Commit(e: Envelope<R>, faults: seq<WriteResult>) returns (result: StoreResult)
      requires Valid() && |faults| == |files| && e.number <= reserved
      modifies this
      ensures Valid() && (View(), result) == CommitEffect(old(View()), owner, e, faults)
    {
      if e.number <= committed {
        return Superseded;
      }
      ghost var before := files;
      ghost var k := FirstFailure(owner, faults, 0);
      var i := 0;
      while i < |files|
        invariant 0 <= i <= k && |files| == |before|
        invariant files == Overwritten(before, e, i)
        invariant reserved == old(reserved) && committed == old(committed)
      {
        match SlotResult(owner, faults, i) {
          case FailedKept =>
            assert k == i;
            return IoError(i);
          case FailedLanded =>
            assert k == i;
            files := files[i := Sealed(e)];
            assert files == Overwritten(before, e, i + 1);
            return IoError(i);
          case Written =>
            files := files[i := Sealed(e)];
        }
        i := i + 1;
      }
      committed := e.number;
      return Stored;
    }

    method Store(record: R, faults: seq<WriteResult>) returns (result: StoreResult)
      requires Valid() && |faults| == |files|
      modifies this
      ensures Valid() && (View(), result) == StoreEffect(old(View()), owner, record, faults)
    {
      if |files| == 0 {
        return Stored;
      }
      reserved := reserved + 1;
      result := Commit(Envelope(owner.nonce, reserved, owner.baseboard, record), faults);
    }

    /** Read every slot in order, stopping at the first that cannot be trusted. */
    method ScanSlots() returns (scan: Scan<R>)
      ensures scan == ScanFrom(files, owner.baseboard, 0)
    {
      var found: seq<Envelope<R>> := [];
      for i := 0 to |files|
        invariant ScanFrom(files, owner.baseboard, 0) ==
                  match ScanFrom(files, owner.baseboard, i)
                  case Bad(reason) => Bad(reason)
                  case Found(rest) => Found(found + rest)
      {
        match files[i] {
          case Missing =>
          case Unreadable => return Bad(Io(i));
          case Corrupt => return Bad(Damaged(i));
          case Sealed(e) =>
            if e.baseboard != owner.baseboard {
              return Bad(Foreign(i));
            }
            ghost var tail := ScanFrom(files, owner.baseboard, i + 1);
            assert tail.Found? ==> found + ([e] + tail.envelopes) == found + [e] + tail.envelopes;
            found := found + [e];
        }
      }
      return Found(found);
    }

    method Load(faults: seq<WriteResult>) returns (verdict: Verdict<R>)
      requires Valid() && |faults| == |files|
      modifies this
      ensures Valid() && (View(), verdict) == LoadEffect(old(View()), owner, faults)
      ensures verdict == VerdictOn(old(files), owner.baseboard)
      ensures !verdict.HasRecord() ==> View() == old(View())
      ensures verdict.HasRecord() ==>
                forall i :: 0 <= i < |old(files)| && Own(old(files)[i], owner.baseboard) ==>
                  old(files)[i].envelope.number <= reserved
    {
      LoadHearsNumbers(View(), owner, faults);
      if |files| == 0 {
        return Empty;
      }
      var scan := ScanSlots();
      if scan.Bad? {
        return Discard(scan.reason);
      }
      var found := scan.envelopes;
      if |found| == 0 {
        return Empty;
      }
      verdict := Weigh(found, |files|);
      if verdict.Discard? {
        return;
      }
      var top := found[Highest(found)].number;
      if top > reserved {
        reserved := top;
      }
      if |found| < |files| || !AllEqual(found) {
        var _ := Store(verdict.record, faults);
      }
    }
  }

  /** The decision a load makes on a non-empty scan. */
  method Weigh<R(==)>(found: seq<Envelope<R>>, slots: nat) returns (verdict: Verdict<R>)
    requires |found| > 0
    ensures verdict == Judge(found, slots)
  {
    if AllEqual(found) {
      return if |found| < slots then Restore(found[0].record) else Adopt(found[0].record);
    }
    var top := Highest(found);
    TornTest(found);
    if (exists j :: 0 <= j < |found| && found[j].nonce != found[top].nonce)
       || Copies(found, found[top].number) != 1 {
      return Discard(Disagree);
    }
    forall i: nat | IsNewest(found, i) ensures i == top { NewestIsUnique(found, i, top); }
    return Adopt(found[top].record);
  }
}
