/** The chain of job IDs in a session (common/src/jobs.rs). Hashes are terms: two
are equal only when they hash the same thing. A job is started only as the
session's next job, which the callers of `job_started` see to. */
module Session {
  type SessionId = nat

  /** `Origin` stands for an ID from anywhere else. */
  datatype JobId =
    | First(session: SessionId)
    | After(job: Request)
    | AfterBurn(id: JobId)
    | Origin(name: nat)

  /** A signed request; `body` is the rest of what the signature covers. */
  datatype Request = Request(id: JobId, session: SessionId, body: nat)

  datatype LastJob = NoJob | Last(job: Request) | Burned(id: JobId) | Resumed(next: JobId)

  datatype Chain = Chain(session: SessionId, last: LastJob)

  function NextId(c: Chain): JobId {
    match c.last
    case NoJob => First(c.session)
    case Last(job) => After(job)
    case Burned(id) => AfterBurn(id)
    case Resumed(next) => next
  }

  predicate IsHead(c: Chain, id: JobId) {
    c.last.Last? && c.last.job.id == id
  }

  function Skipped(c: Chain, id: JobId): (Chain, bool) {
    if id == NextId(c) || IsHead(c, id) then (c.(last := Burned(id)), true) else (c, false)
  }

  class Tracker {
    const session: SessionId
    var last: LastJob

    constructor (session: SessionId)
      ensures View() == Chain(session, NoJob)
    {
      this.session, last := session, NoJob;
    }

    function View(): Chain
      reads this
    {
      Chain(session, last)
    }

    method JobStarted(job: Request)
      modifies this
      ensures View() == Chain(session, Last(job))
    {
      last := Last(job);
    }

    method SkipJob(id: JobId) returns (moved: bool)
      modifies this
      ensures (View(), moved) == Skipped(old(View()), id)
      ensures moved ==> NextId(View()) == AfterBurn(id)
    {
      if id == NextId(View()) || (last.Last? && last.job.id == id) {
        last := Burned(id);
        moved := true;
      } else {
        moved := false;
      }
    }

    method ResumeAt(successor: JobId)
      modifies this
      ensures View() == Chain(session, Resumed(successor)) && NextId(View()) == successor
    {
      last := Resumed(successor);
    }
  }

  // ---- Runs

  datatype Event = Start(job: Request) | Skip(id: JobId)

  function Step(c: Chain, e: Event): Chain {
    match e
    case Start(job) => if job.id == NextId(c) then c.(last := Last(job)) else c
    case Skip(id) => Skipped(c, id).0
  }

  function Run(c: Chain, es: seq<Event>): Chain {
    if |es| == 0 then c else Step(Run(c, es[..|es| - 1]), es[|es| - 1])
  }

  /** How far along its chain an ID is. */
  function Depth(id: JobId): nat {
    match id
    case First(_) => 0
    case After(job) => Depth(job.id) + 1
    case AfterBurn(burned) => Depth(burned) + 1
    case Origin(_) => 0
  }

  /** The positions a run has started or skipped. */
  function Consumed(c: Chain, es: seq<Event>): set<JobId> {
    if |es| == 0 then {}
    else
      var before, e := es[..|es| - 1], es[|es| - 1];
      var known, now := Consumed(c, before), Run(c, before);
      match e
      case Start(job) => if job.id == NextId(now) then known + {job.id} else known
      case Skip(id) => if Skipped(now, id).1 then known + {id} else known
  }

  /** The next ID is past every position consumed, even after a burn has turned the
      head back: no position comes up twice. */
  lemma {:induction false} NextIsNew(c: Chain, es: seq<Event>)
    ensures forall id <- Consumed(c, es) :: Depth(id) < Depth(NextId(Run(c, es)))
    ensures NextId(Run(c, es)) !in Consumed(c, es)
  {
    if |es| > 0 {
      NextIsNew(c, es[..|es| - 1]);
    }
  }

  // ---- Replicas converge

  /** What was decided about one position in the end. */
  datatype Decision = Ran(job: Request) | Burnt(id: JobId)

  /** The standing decisions of a run: a late skip of the head replaces the
      decision to run it. */
  function Standing(c: Chain, es: seq<Event>): seq<Decision> {
    if |es| == 0 then []
    else
      var before, e := es[..|es| - 1], es[|es| - 1];
      var ds, now := Standing(c, before), Run(c, before);
      match e
      case Start(job) => if job.id == NextId(now) then ds + [Ran(job)] else ds
      case Skip(id) =>
        if id == NextId(now) then ds + [Burnt(id)]
        else if IsHead(now, id) && |ds| > 0 then ds[..|ds| - 1] + [Burnt(id)]
        else ds
  }

  function LastOf(ds: seq<Decision>): LastJob {
    if |ds| == 0 then NoJob
    else match ds[|ds| - 1]
      case Ran(job) => Last(job)
      case Burnt(id) => Burned(id)
  }

  lemma {:induction false} StandingDecides(session: SessionId, es: seq<Event>)
    ensures var c := Chain(session, NoJob); Run(c, es) == Chain(session, LastOf(Standing(c, es)))
  {
    if |es| > 0 {
      StandingDecides(session, es[..|es| - 1]);
    }
  }

  /** Replicas whose standing decisions are the same are at the same place, whether
      or not they ran a job before its skip arrived. */
  lemma {:induction false} ReplicasConverge(session: SessionId, here: seq<Event>, there: seq<Event>)
    requires var c := Chain(session, NoJob); Standing(c, here) == Standing(c, there)
    ensures var c := Chain(session, NoJob); Run(c, here) == Run(c, there)
  {
    StandingDecides(session, here);
    StandingDecides(session, there);
  }

  /** The decisions an ID was reached by. */
  function Decisions(id: JobId): seq<Decision> {
    match id
    case First(_) => []
    case After(job) => Decisions(job.id) + [Ran(job)]
    case AfterBurn(burned) => Decisions(burned) + [Burnt(burned)]
    case Origin(_) => []
  }

  /** The next ID tells every standing decision of the run. */
  lemma {:induction false} NextIdTellsDecisions(session: SessionId, es: seq<Event>)
    ensures var c := Chain(session, NoJob); Standing(c, es) == Decisions(NextId(Run(c, es)))
  {
    if |es| > 0 {
      var c, before, e := Chain(session, NoJob), es[..|es| - 1], es[|es| - 1];
      NextIdTellsDecisions(session, before);
      var ds, now := Standing(c, before), Run(c, before);
      if e.Skip? && e.id != NextId(now) && IsHead(now, e.id) {
        assert ds == Decisions(e.id) + [Ran(now.last.job)];
        assert ds[..|ds| - 1] == Decisions(e.id);
      }
    }
  }

  /** Replicas agree on the next ID exactly when they agree on every standing
      decision: no two histories lead to one ID. */
  lemma {:induction false} SameIdIffSameDecisions(session: SessionId, here: seq<Event>, there: seq<Event>)
    ensures var c := Chain(session, NoJob);
      NextId(Run(c, here)) == NextId(Run(c, there)) <==> Standing(c, here) == Standing(c, there)
  {
    NextIdTellsDecisions(session, here);
    NextIdTellsDecisions(session, there);
    StandingDecides(session, here);
    StandingDecides(session, there);
  }

  lemma {:induction false} LateSkipIsSkip(session: SessionId, es: seq<Event>, job: Request)
    requires job.id == NextId(Run(Chain(session, NoJob), es))
    ensures var c := Chain(session, NoJob);
            && Standing(c, es + [Start(job), Skip(job.id)]) == Standing(c, es + [Skip(job.id)])
            && Run(c, es + [Start(job), Skip(job.id)]) == Run(c, es + [Skip(job.id)])
  {
    var c := Chain(session, NoJob);
    var ran := es + [Start(job)];
    var both := es + [Start(job), Skip(job.id)];
    assert ran[..|es|] == es && both[..|es| + 1] == ran && (es + [Skip(job.id)])[..|es|] == es;
    assert Standing(c, ran) == Standing(c, es) + [Ran(job)];
    assert Depth(NextId(Run(c, ran))) == Depth(job.id) + 1;
    assert Standing(c, both) == Standing(c, es) + [Burnt(job.id)];
    ReplicasConverge(session, both, es + [Skip(job.id)]);
  }

  // ---- Resuming after a restart

  /** The chain as a restarted sled has it: only its next position is known. */
  function AfterRestart(c: Chain): Chain {
    Chain(c.session, Resumed(NextId(c)))
  }

  predicate Moves(c: Chain, e: Event) {
    match e
    case Start(job) => job.id == NextId(c)
    case Skip(id) => Skipped(c, id).1
  }

  /** The first event to move the chain is a skip of its head. */
  ghost predicate SkipsHead(c: Chain, es: seq<Event>) {
    exists i :: 0 <= i < |es| && SkipsHeadAt(c, es, i)
  }

  ghost predicate SkipsHeadAt(c: Chain, es: seq<Event>, i: nat)
    requires i < |es|
  {
    es[i].Skip? && IsHead(c, es[i].id) && forall j :: 0 <= j < i ==> !Moves(c, es[j])
  }

  /** An ID on the chain through `id`. */
  predicate Through(id: JobId, at: JobId) {
    at == id
    || match at {
         case First(_) => false
         case After(job) => Through(id, job.id)
         case AfterBurn(burned) => Through(id, burned)
         case Origin(_) => false
       }
  }

  lemma {:induction false} ThroughIsDeeper(id: JobId, at: JobId)
    requires Through(id, at)
    ensures Depth(id) <= Depth(at)
  {
    if at != id {
      match at {
        case After(job) => ThroughIsDeeper(id, job.id);
        case AfterBurn(burned) => ThroughIsDeeper(id, burned);
      }
    }
  }

  lemma {:induction false} OneWayThrough(a: JobId, b: JobId, at: JobId)
    requires Through(a, at) && Through(b, at) && Depth(a) == Depth(b)
    ensures a == b
  {
    if at == a {
      if at != b {
        match at {
          case After(job) => ThroughIsDeeper(b, job.id);
          case AfterBurn(burned) => ThroughIsDeeper(b, burned);
        }
      }
    } else if at == b {
      match at {
        case After(job) => ThroughIsDeeper(a, job.id);
        case AfterBurn(burned) => ThroughIsDeeper(a, burned);
      }
    } else {
      match at {
        case After(job) => OneWayThrough(a, b, job.id);
        case AfterBurn(burned) => OneWayThrough(a, b, burned);
      }
    }
  }

  lemma {:induction false} Unmoved(c: Chain, es: seq<Event>)
    requires forall j :: 0 <= j < |es| ==> !Moves(c, es[j])
    ensures Run(c, es) == c && Run(AfterRestart(c), es) == AfterRestart(c)
  {
    if |es| > 0 {
      Unmoved(c, es[..|es| - 1]);
    }
  }

  /** Until something moves it the restarted chain waits where it resumed; then it
      is the uninterrupted one again. */
  lemma {:induction false} RejoinsUnlessHeadSkipped(c: Chain, es: seq<Event>)
    requires !SkipsHead(c, es)
    ensures var (a, b) := (Run(c, es), Run(AfterRestart(c), es));
            a == b || (a == c && b == AfterRestart(c) && forall j :: 0 <= j < |es| ==> !Moves(c, es[j]))
  {
    if |es| > 0 {
      var k := |es| - 1;
      var before := es[..k];
      forall i | 0 <= i < k
        ensures SkipsHeadAt(c, before, i) <==> SkipsHeadAt(c, es, i)
      {
        assert forall j :: 0 <= j <= i ==> before[j] == es[j];
      }
      RejoinsUnlessHeadSkipped(c, before);
      assert forall j :: 0 <= j < k ==> before[j] == es[j];
      assert !SkipsHeadAt(c, es, k);
    }
  }

  /** On a chain through `id` for good: a burn of the head stays past it. */
  ghost predicate Past(c: Chain, id: JobId) {
    Through(id, NextId(c)) && (c.last.Last? ==> Through(id, c.last.job.id))
  }

  lemma {:induction false} StaysPast(c: Chain, id: JobId, es: seq<Event>)
    requires Past(c, id)
    ensures Past(Run(c, es), id)
  {
    if |es| > 0 {
      StaysPast(c, id, es[..|es| - 1]);
    }
  }

  lemma {:induction false} RunInTwo(c: Chain, es: seq<Event>, k: nat)
    requires k <= |es|
    ensures Run(c, es) == Run(Run(c, es[..k]), es[k..])
    decreases |es|
  {
    if k == |es| {
      assert es[..k] == es && es[k..] == [];
    } else {
      var n := |es| - 1;
      RunInTwo(c, es[..n], k);
      assert es[..n][..k] == es[..k] && es[..n][k..] == es[k..][..n - k];
    }
  }

  lemma {:induction false} PartsForever(c: Chain, es: seq<Event>, i: nat)
    requires i < |es| && SkipsHeadAt(c, es, i)
    ensures NextId(Run(c, es)) != NextId(Run(AfterRestart(c), es))
  {
    var r := AfterRestart(c);
    Unmoved(c, es[..i]);
    assert es[..i + 1][..i] == es[..i];
    var a, b := Run(c, es[..i + 1]), Run(r, es[..i + 1]);
    assert Depth(NextId(c)) == Depth(c.last.job.id) + 1;
    assert a == Chain(c.session, Burned(c.last.job.id)) && b == r;
    RunInTwo(c, es, i + 1);
    RunInTwo(r, es, i + 1);
    StaysPast(a, NextId(a), es[i + 1..]);
    StaysPast(b, NextId(b), es[i + 1..]);
    if NextId(Run(c, es)) == NextId(Run(r, es)) {
      OneWayThrough(NextId(a), NextId(b), NextId(Run(c, es)));
      assert false;
    }
  }

  /** A session resumed at its stored successor gives the same next ID as one that
      was never interrupted, after any later events, unless the job that was the
      head before the crash is skipped before the chain moves on; and then it never
      does again. */
  lemma {:induction false} ResumedAgreesIff(c: Chain, es: seq<Event>)
    ensures NextId(Run(c, es)) == NextId(Run(AfterRestart(c), es)) <==> !SkipsHead(c, es)
  {
    if SkipsHead(c, es) {
      var i :| 0 <= i < |es| && SkipsHeadAt(c, es, i);
      PartsForever(c, es, i);
    } else {
      RejoinsUnlessHeadSkipped(c, es);
    }
  }

  /** No ID of one session ever comes up in another. */
  lemma {:induction false} SessionsNeverMeet(one: SessionId, other: SessionId, es: seq<Event>, fs: seq<Event>)
    requires one != other
    ensures NextId(Run(Chain(one, NoJob), es)) != NextId(Run(Chain(other, NoJob), fs))
  {
    StaysPast(Chain(one, NoJob), First(one), es);
    StaysPast(Chain(other, NoJob), First(other), fs);
    var a, b := NextId(Run(Chain(one, NoJob), es)), NextId(Run(Chain(other, NoJob), fs));
    if a == b {
      OneWayThrough(First(one), First(other), a);
      assert false;
    }
  }
}
