/** The bounded job history (server/src/history.rs): a status per job and sled,
the causal order of what happened, and the jobs running now. Ranks, job IDs,
sleds and times are numbers here; only their order matters. */
module History {
  import opened Wrappers

  type Job = nat
  type Sled = nat
  type Rank = nat
  type Time = nat

  const MAX_HISTORY := 32 * 2048
  const LOW_WATER_MARK := MAX_HISTORY - MAX_HISTORY / 16

  datatype Status =
    | Cancelled(time: Time)
    | Queued(time: Time)
    | Error(time: Time)
    | Started(time: Time)
    | Stopped(time: Time)
    | Skipped(time: Time)

  datatype Entry = Entry(rank: Rank, job: Job, sled: Sled)

  predicate Before(a: Entry, b: Entry) {
    a.rank < b.rank || (a.rank == b.rank && (a.job < b.job || (a.job == b.job && a.sled < b.sled)))
  }

  type StatusMap = map<Sled, Status>

  /** `causal` is an ordered set, least first. */
  datatype View = View(causal: seq<Entry>, status: map<Job, StatusMap>, running: map<(Job, Sled), Time>)

  const EMPTY := View([], map[], map[])

  ghost predicate Sorted(causal: seq<Entry>) {
    forall i, j :: 0 <= i < j < |causal| ==> Before(causal[i], causal[j])
  }

  function Insert(causal: seq<Entry>, e: Entry): seq<Entry> {
    if |causal| == 0 then [e]
    else if Before(e, causal[0]) then [e] + causal
    else if e == causal[0] then causal
    else [causal[0]] + Insert(causal[1..], e)
  }

  lemma {:induction false} InsertSorts(causal: seq<Entry>, e: Entry)
    requires Sorted(causal)
    ensures Sorted(Insert(causal, e))
    ensures forall x :: x in Insert(causal, e) <==> x == e || x in causal
  {
    if |causal| > 0 && !Before(e, causal[0]) && e != causal[0] {
      InsertSorts(causal[1..], e);
      var rest := Insert(causal[1..], e);
      assert causal == [causal[0]] + causal[1..];
      forall i | 0 <= i < |rest|
        ensures Before(causal[0], rest[i])
      {
        assert rest[i] in rest;
      }
    }
  }

  function JobsOf(causal: seq<Entry>): set<Job> {
    set e <- causal :: e.job
  }

  // ---- Setting a status

  function Updated(h: View, job: Job, sled: Sled, status: Status, rank: Option<Rank>): View {
    var known := if job in h.status then h.status[job] else map[];
    View(if rank.Some? then Insert(h.causal, Entry(rank.value, job, sled)) else h.causal,
         h.status[job := known[sled := status]],
         if status.Started? then h.running[(job, sled) := status.time] else h.running - {(job, sled)})
  }

  // ---- Eviction

  function RunningJobs(running: map<(Job, Sled), Time>): set<Job> {
    set id <- running :: id.0
  }

  lemma {:induction false} LeastExists(s: set<nat>) returns (m: nat)
    requires s != {}
    ensures m in s && forall x <- s :: m <= x
  {
    var y :| y in s;
    m := y;
    if s != {y} {
      var n := LeastExists(s - {y});
      m := if n <= y then n else y;
      assert forall x <- s :: x == y || x in s - {y};
    }
  }

  function Least(s: set<nat>): (m: nat)
    requires s != {}
    ensures m in s && forall x <- s :: m <= x
  {
    assert exists m :: m in s && forall x <- s :: m <= x by {
      var least := LeastExists(s);
    }
    var m :| m in s && forall x <- s :: m <= x;
    m
  }

  /** The first entry whose job is one of these. */
  function Find(causal: seq<Entry>, jobs: set<Job>): (r: Option<Entry>)
    ensures r.None? ==> forall e <- causal :: e.job !in jobs
    ensures r.Some? ==> r.value in causal && r.value.job in jobs
  {
    if |causal| == 0 then None
    else if causal[0].job in jobs then Some(causal[0])
    else Find(causal[1..], jobs)
  }

  lemma {:induction false} FindIsFirst(causal: seq<Entry>, jobs: set<Job>)
    requires Sorted(causal)
    ensures var r := Find(causal, jobs);
            r.Some? ==> forall e <- causal :: e.job in jobs ==> e == r.value || Before(r.value, e)
  {
    if |causal| > 0 && causal[0].job !in jobs {
      FindIsFirst(causal[1..], jobs);
      assert causal == [causal[0]] + causal[1..];
    }
  }

  function Acausal(h: View): set<Job> {
    set j <- h.status | j !in JobsOf(h.causal)
  }

  /** The job to evict: the least one no causal entry names, or else the one whose
      entry comes first. */
  function Victim(h: View, ineligible: set<Job>): (r: Option<Job>)
    ensures r.Some? ==> r.value in h.status && r.value !in ineligible
  {
    var acausal := Acausal(h) - ineligible;
    if acausal != {} then Some(Least(acausal))
    else
      var first := Find(h.causal, h.status.Keys - ineligible);
      if first.Some? then Some(first.value.job) else None
  }

  function Retain(causal: seq<Entry>, job: Job): (r: seq<Entry>)
    ensures forall e :: e in r <==> e in causal && e.job != job
  {
    if |causal| == 0 then []
    else
      assert causal == [causal[0]] + causal[1..];
      (if causal[0].job == job then [] else [causal[0]]) + Retain(causal[1..], job)
  }

  lemma {:induction false} RetainSorts(causal: seq<Entry>, job: Job)
    requires Sorted(causal)
    ensures Sorted(Retain(causal, job))
  {
    if |causal| > 0 {
      RetainSorts(causal[1..], job);
      var rest := Retain(causal[1..], job);
      forall i | 0 <= i < |rest|
        ensures Before(causal[0], rest[i])
      {
        assert rest[i] in rest && rest[i] in causal[1..];
      }
    }
  }

  function Without(h: View, job: Job): View {
    h.(status := h.status - {job}, causal := Retain(h.causal, job))
  }

  function Evict(h: View, ineligible: set<Job>): View
    decreases |h.status|
  {
    var victim := Victim(h, ineligible);
    if |h.status| <= LOW_WATER_MARK || victim.None? then h
    else
      assert (h.status - {victim.value}).Keys == h.status.Keys - {victim.value};
      Evict(Without(h, victim.value), ineligible)
  }

  function Ineligible(h: View, queued: set<Job>): set<Job> {
    queued + RunningJobs(h.running)
  }

  function Collected(h: View, queued: set<Job>): View {
    if |h.status| <= MAX_HISTORY then h else Evict(h, Ineligible(h, queued))
  }

  function Set(h: View, job: Job, sled: Sled, status: Status, rank: Option<Rank>, queued: set<Job>): View {
    Collected(Updated(h, job, sled, status, rank), queued)
  }

  // ---- Agreement of the three indexes

  predicate Runs(status: map<Job, StatusMap>, job: Job, sled: Sled) {
    job in status && sled in status[job] && status[job][sled].Started?
  }

  /** The running jobs are exactly the started ones, with their start times;
      causal entries are in order and name retained jobs; no retained job is
      without a status. */
  ghost predicate Agrees(h: View) {
    && Sorted(h.causal)
    && (forall e <- h.causal :: e.job in h.status)
    && (forall j: Job, s: Sled :: (j, s) in h.running <==> Runs(h.status, j, s))
    && (forall j: Job, s: Sled :: (j, s) in h.running ==> h.running[(j, s)] == h.status[j][s].time)
    && (forall j <- h.status :: h.status[j] != map[])
  }

  lemma {:induction false} UpdateAgrees(h: View, job: Job, sled: Sled, status: Status, rank: Option<Rank>)
    requires Agrees(h)
    ensures Agrees(Updated(h, job, sled, status, rank))
  {
    if rank.Some? {
      InsertSorts(h.causal, Entry(rank.value, job, sled));
    }
    var g := Updated(h, job, sled, status, rank);
    forall j: Job, s: Sled
      ensures (j, s) in g.running <==> Runs(g.status, j, s)
      ensures (j, s) in g.running ==> g.running[(j, s)] == g.status[j][s].time
    {
      assert (j, s) in h.running <==> Runs(h.status, j, s);
    }
    assert g.status[job][sled] == status;
  }

  /** What eviction keeps, and what it must not touch. */
  ghost predicate Spares(h: View, g: View, ineligible: set<Job>) {
    && g.running == h.running
    && g.status.Keys <= h.status.Keys
    && (forall j <- g.status :: g.status[j] == h.status[j])
    && (forall j <- h.status :: j in ineligible ==> j in g.status)
    && (forall e :: e in g.causal <==> e in h.causal && e.job in g.status)
  }

  lemma {:induction false} WithoutAgrees(h: View, job: Job, ineligible: set<Job>)
    requires Agrees(h) && RunningJobs(h.running) <= ineligible && job in h.status && job !in ineligible
    ensures Agrees(Without(h, job)) && Spares(h, Without(h, job), ineligible)
  {
    RetainSorts(h.causal, job);
    var g := Without(h, job);
    forall j: Job, s: Sled
      ensures (j, s) in g.running <==> Runs(g.status, j, s)
    {
      assert (j, s) in h.running <==> Runs(h.status, j, s);
      assert (j, s) in h.running ==> j in RunningJobs(h.running);
    }
  }

  /** Eviction keeps the indexes in agreement, spares every running and queued job
      with all its entries, and stops only at the low-water mark or when nothing
      eligible is left. */
  lemma {:induction false} EvictAgrees(h: View, ineligible: set<Job>)
    requires Agrees(h) && RunningJobs(h.running) <= ineligible
    ensures var g := Evict(h, ineligible);
            && Agrees(g) && Spares(h, g, ineligible)
            && (|g.status| <= LOW_WATER_MARK || g.status.Keys <= ineligible)
    decreases |h.status|
  {
    var victim := Victim(h, ineligible);
    if |h.status| > LOW_WATER_MARK && victim.Some? {
      WithoutAgrees(h, victim.value, ineligible);
      assert (h.status - {victim.value}).Keys == h.status.Keys - {victim.value};
      EvictAgrees(Without(h, victim.value), ineligible);
    } else if victim.None? {
      NoVictim(h, ineligible);
    }
  }

  lemma {:induction false} NoVictim(h: View, ineligible: set<Job>)
    requires Victim(h, ineligible).None?
    ensures h.status.Keys <= ineligible
  {
    assert Acausal(h) - ineligible == {};
    assert forall j :: j in Acausal(h) ==> j in ineligible || j in Acausal(h) - ineligible;
    assert forall e <- h.causal :: e.job !in h.status.Keys - ineligible;
    assert forall j <- h.status :: j in Acausal(h) || j in JobsOf(h.causal);
  }

  // ---- Which jobs go first

  ghost predicate Oldest(causal: seq<Entry>, job: Job, e: Entry) {
    e in causal && e.job == job && forall x <- causal :: x.job == job ==> x == e || Before(e, x)
  }

  /** A job that was evicted had every right to go before one that was not: only
      jobs without causal entries may go before other such jobs, and a job with
      causal entries goes only if its oldest entry comes before the oldest entry
      of every eligible job that stays. */
  ghost predicate GoesFirst(h: View, gone: Job, kept: Job) {
    gone in JobsOf(h.causal) ==>
      && kept in JobsOf(h.causal)
      && forall e, f :: Oldest(h.causal, gone, e) && Oldest(h.causal, kept, f) ==> Before(e, f)
  }

  lemma {:induction false} VictimGoesFirst(h: View, ineligible: set<Job>, kept: Job)
    requires Agrees(h) && Victim(h, ineligible).Some?
    requires kept in h.status && kept !in ineligible && kept != Victim(h, ineligible).value
    ensures GoesFirst(h, Victim(h, ineligible).value, kept)
  {
    var victim := Victim(h, ineligible).value;
    if victim in JobsOf(h.causal) {
      assert victim !in Acausal(h) && kept !in Acausal(h) - ineligible;
      FindIsFirst(h.causal, h.status.Keys - ineligible);
    }
  }

  lemma {:induction false} GoesFirstBefore(h: View, v: Job, gone: Job, kept: Job)
    requires gone != v && kept != v && GoesFirst(Without(h, v), gone, kept)
    ensures GoesFirst(h, gone, kept)
  {
    var g := Without(h, v);
    if gone in JobsOf(h.causal) {
      var x :| x in h.causal && x.job == gone;
      assert x in g.causal;
      forall e, f | Oldest(h.causal, gone, e) && Oldest(h.causal, kept, f)
        ensures Before(e, f)
      {
        assert Oldest(g.causal, gone, e) && Oldest(g.causal, kept, f);
      }
    }
  }

  lemma {:induction false} EvictionOrder(h: View, ineligible: set<Job>, gone: Job, kept: Job)
    requires Agrees(h) && RunningJobs(h.running) <= ineligible
    requires gone in h.status && gone !in Evict(h, ineligible).status
    requires kept in Evict(h, ineligible).status && kept !in ineligible
    ensures GoesFirst(h, gone, kept)
    decreases |h.status|
  {
    var victim := Victim(h, ineligible).value;
    WithoutAgrees(h, victim, ineligible);
    assert (h.status - {victim}).Keys == h.status.Keys - {victim};
    EvictAgrees(Without(h, victim), ineligible);
    if gone == victim {
      VictimGoesFirst(h, ineligible, kept);
    } else {
      EvictionOrder(Without(h, victim), ineligible, gone, kept);
      GoesFirstBefore(h, victim, gone, kept);
    }
  }

  // ---- Every run of updates

  datatype Update = Update(job: Job, sled: Sled, status: Status, rank: Option<Rank>, queued: set<Job>)

  function After(us: seq<Update>): View {
    if |us| == 0 then EMPTY
    else
      var u := us[|us| - 1];
      Set(After(us[..|us| - 1]), u.job, u.sled, u.status, u.rank, u.queued)
  }

  lemma {:induction false} SetAgrees(h: View, u: Update)
    requires Agrees(h)
    ensures var updated := Updated(h, u.job, u.sled, u.status, u.rank);
            var g := Set(h, u.job, u.sled, u.status, u.rank, u.queued);
            && Agrees(g) && Spares(updated, g, Ineligible(g, u.queued))
            && (|g.status| <= MAX_HISTORY || g.status.Keys <= Ineligible(g, u.queued))
  {
    UpdateAgrees(h, u.job, u.sled, u.status, u.rank);
    var updated := Updated(h, u.job, u.sled, u.status, u.rank);
    if |updated.status| > MAX_HISTORY {
      EvictAgrees(updated, Ineligible(updated, u.queued));
    }
  }

  /** Eviction goes no further than the low-water mark. */
  lemma {:induction false} EvictStopsAtLowWater(h: View, ineligible: set<Job>)
    requires |h.status| >= LOW_WATER_MARK
    ensures |Evict(h, ineligible).status| >= LOW_WATER_MARK
    decreases |h.status|
  {
    var victim := Victim(h, ineligible);
    if |h.status| > LOW_WATER_MARK && victim.Some? {
      assert (h.status - {victim.value}).Keys == h.status.Keys - {victim.value};
      EvictStopsAtLowWater(Without(h, victim.value), ineligible);
    }
  }

  /** Whatever stays after an update is as it was, but for the entry that was set: the
      job has the given status on that sled, and its causal entry if it came with a
      rank. */
  lemma {:induction false} SetStores(h: View, u: Update)
    requires Agrees(h)
    ensures var g := Set(h, u.job, u.sled, u.status, u.rank, u.queued);
      && (u.job in g.status ==>
            && u.sled in g.status[u.job] && g.status[u.job][u.sled] == u.status
            && (u.rank.Some? ==> Entry(u.rank.value, u.job, u.sled) in g.causal)
            && forall s :: s != u.sled ==>
                 (s in g.status[u.job] <==> u.job in h.status && s in h.status[u.job])
                 && (s in g.status[u.job] ==> g.status[u.job][s] == h.status[u.job][s]))
      && (forall j <- g.status :: j != u.job ==> j in h.status && g.status[j] == h.status[j])
      && (forall e <- g.causal :: e in h.causal || (u.rank.Some? && e == Entry(u.rank.value, u.job, u.sled)))
      && (forall e <- h.causal :: e.job in g.status ==> e in g.causal)
  {
    SetAgrees(h, u);
    if u.rank.Some? {
      InsertSorts(h.causal, Entry(u.rank.value, u.job, u.sled));
    }
  }

  /** Nothing goes while there is room, and then only down to the low-water mark. */
  lemma {:induction false} SetEvictsOnlyWhenFull(h: View, u: Update)
    requires Agrees(h)
    ensures var updated := Updated(h, u.job, u.sled, u.status, u.rank);
      var g := Set(h, u.job, u.sled, u.status, u.rank, u.queued);
      && updated.status.Keys == h.status.Keys + {u.job}
      && (if |updated.status| <= MAX_HISTORY then g == updated else |g.status| >= LOW_WATER_MARK)
  {
    var updated := Updated(h, u.job, u.sled, u.status, u.rank);
    if |updated.status| > MAX_HISTORY {
      EvictStopsAtLowWater(updated, Ineligible(updated, u.queued));
    }
  }

  /** A job that was just started is not evicted by its own update. */
  lemma {:induction false} StartedStays(h: View, u: Update)
    requires Agrees(h) && u.status.Started?
    ensures var g := Set(h, u.job, u.sled, u.status, u.rank, u.queued);
      u.job in g.status && (u.job, u.sled) in g.running && g.running[(u.job, u.sled)] == u.status.time
  {
    SetAgrees(h, u);
    var updated := Updated(h, u.job, u.sled, u.status, u.rank);
    var g := Set(h, u.job, u.sled, u.status, u.rank, u.queued);
    assert (u.job, u.sled) in g.running;
    assert u.job in RunningJobs(g.running);
  }

  /** After any updates the indexes agree; the last one evicted no job that is
      running or that was passed in as queued; and the history is within its
      bound unless every job in it is one of those. */
  lemma {:induction false} RunAgrees(us: seq<Update>)
    ensures Agrees(After(us))
    ensures |us| > 0 ==>
              var u := us[|us| - 1];
              var g := After(us);
              && Spares(Updated(After(us[..|us| - 1]), u.job, u.sled, u.status, u.rank), g, Ineligible(g, u.queued))
              && (|g.status| <= MAX_HISTORY || g.status.Keys <= Ineligible(g, u.queued))
  {
    if |us| > 0 {
      RunAgrees(us[..|us| - 1]);
      SetAgrees(After(us[..|us| - 1]), us[|us| - 1]);
    }
  }

  // ---- Listing the jobs

  function Ascending(s: set<Job>): (r: seq<Job>)
    ensures forall j :: j in r <==> j in s
    ensures forall i, j :: 0 <= i < j < |r| ==> r[i] < r[j]
  {
    if s == {} then [] else [Least(s)] + Ascending(s - {Least(s)})
  }

  lemma {:induction false} GreatestExists(s: set<Time>) returns (m: Time)
    requires s != {}
    ensures m in s && forall x <- s :: x <= m
  {
    var y :| y in s;
    m := y;
    if s != {y} {
      var n := GreatestExists(s - {y});
      m := if n >= y then n else y;
      assert forall x <- s :: x == y || x in s - {y};
    }
  }

  /** The latest time of any status of a job; a job without one counts as older
      than any time. */
  function Newest(statuses: StatusMap): (m: int)
    ensures statuses == map[] ==> m == -1
    ensures statuses != map[] ==> exists s :: s in statuses && statuses[s].time == m
    ensures forall s <- statuses :: statuses[s].time <= m
  {
    var times := set s <- statuses :: statuses[s].time;
    assert forall s <- statuses :: statuses[s].time in times;
    if times == {} then -1
    else
      assert exists m :: m in times && forall x <- times :: x <= m by {
        var greatest := GreatestExists(times);
      }
      var m :| m in times && forall x <- times :: x <= m;
      m
  }

  function Ages(h: View): map<Job, int> {
    map j <- h.status :: Newest(h.status[j])
  }

  /** Newer first; equal times keep the order of the job IDs. */
  predicate Ahead(ages: map<Job, int>, a: Job, b: Job)
    requires a in ages && b in ages
  {
    ages[a] > ages[b] || (ages[a] == ages[b] && a < b)
  }

  /** One step of a stable sort by newest time. */
  function Place(ages: map<Job, int>, job: Job, rest: seq<Job>): (r: seq<Job>)
    requires job in ages && forall j <- rest :: j in ages
    ensures forall j :: j in r <==> j == job || j in rest
  {
    if |rest| == 0 then [job]
    else if ages[job] >= ages[rest[0]] then [job] + rest
    else
      assert rest == [rest[0]] + rest[1..];
      [rest[0]] + Place(ages, job, rest[1..])
  }

  function SortByTime(ages: map<Job, int>, jobs: seq<Job>): (r: seq<Job>)
    requires forall j <- jobs :: j in ages
    ensures forall j :: j in r <==> j in jobs
  {
    if |jobs| == 0 then []
    else
      assert jobs == [jobs[0]] + jobs[1..];
      Place(ages, jobs[0], SortByTime(ages, jobs[1..]))
  }

  ghost predicate InOrder(ages: map<Job, int>, jobs: seq<Job>) {
    && (forall j <- jobs :: j in ages)
    && forall i, j :: 0 <= i < j < |jobs| ==> Ahead(ages, jobs[i], jobs[j])
  }

  lemma {:induction false} PlaceSorts(ages: map<Job, int>, job: Job, rest: seq<Job>)
    requires job in ages && InOrder(ages, rest) && forall i :: 0 <= i < |rest| ==> job < rest[i]
    ensures InOrder(ages, Place(ages, job, rest))
  {
    if |rest| > 0 && ages[job] < ages[rest[0]] {
      PlaceSorts(ages, job, rest[1..]);
      var tail := Place(ages, job, rest[1..]);
      forall i | 0 <= i < |tail|
        ensures Ahead(ages, rest[0], tail[i])
      {
        assert tail[i] in tail;
      }
    }
  }

  lemma {:induction false} SortSorts(ages: map<Job, int>, jobs: seq<Job>)
    requires forall j <- jobs :: j in ages
    requires forall i, j :: 0 <= i < j < |jobs| ==> jobs[i] < jobs[j]
    ensures InOrder(ages, SortByTime(ages, jobs))
  {
    if |jobs| > 0 {
      SortSorts(ages, jobs[1..]);
      var rest := SortByTime(ages, jobs[1..]);
      forall i | 0 <= i < |rest|
        ensures jobs[0] < rest[i]
      {
        assert rest[i] in rest && rest[i] in jobs[1..];
      }
      PlaceSorts(ages, jobs[0], rest);
    }
  }

  /** Jobs by their entries from the last to the first, each where it first shows. */
  function Latest(causal: seq<Entry>, seen: set<Job>): seq<Job> {
    if |causal| == 0 then []
    else
      var e, rest := causal[|causal| - 1], causal[..|causal| - 1];
      if e.job in seen then Latest(rest, seen) else [e.job] + Latest(rest, seen + {e.job})
  }

  ghost predicate LastEntry(causal: seq<Entry>, job: Job, e: Entry) {
    e in causal && e.job == job && forall x <- causal :: x.job == job ==> x == e || Before(x, e)
  }

  lemma {:induction false} LatestOnce(causal: seq<Entry>, seen: set<Job>)
    ensures Distinct(Latest(causal, seen))
    ensures forall j :: j in Latest(causal, seen) <==> j in JobsOf(causal) && j !in seen
  {
    if |causal| > 0 {
      var e, rest := causal[|causal| - 1], causal[..|causal| - 1];
      assert causal == rest + [e];
      LatestOnce(rest, seen);
      LatestOnce(rest, seen + {e.job});
    }
  }

  lemma {:induction false} LatestInOrder(causal: seq<Entry>, seen: set<Job>, i: nat, k: nat, e: Entry, f: Entry)
    requires Sorted(causal) && i < k < |Latest(causal, seen)|
    requires LastEntry(causal, Latest(causal, seen)[i], e) && LastEntry(causal, Latest(causal, seen)[k], f)
    ensures Before(f, e)
  {
    var last, rest := causal[|causal| - 1], causal[..|causal| - 1];
    var jobs := Latest(causal, seen);
    assert causal == rest + [last];
    LatestOnce(causal, seen);
    if last.job in seen {
      assert jobs[i] in jobs && jobs[k] in jobs;
      LatestInOrder(rest, seen, i, k, e, f);
    } else if i == 0 {
      assert e == last;
      assert jobs[0] != jobs[k];
    } else {
      assert jobs[0] != jobs[i] && jobs[0] != jobs[k];
      LatestInOrder(rest, seen + {last.job}, i - 1, k - 1, e, f);
    }
  }

  /** The jobs no causal entry names, as they are listed. */
  function Local(h: View): (r: seq<Job>)
    ensures forall j :: j in r <==> j in Acausal(h)
  {
    SortByTime(Ages(h), Ascending(Acausal(h)))
  }

  /** The jobs in the order they are listed. */
  function Iter(h: View): seq<Job> {
    Local(h) + Latest(h.causal, {})
  }

  lemma {:induction false} LocalInOrder(h: View)
    ensures InOrder(Ages(h), Local(h)) && Distinct(Local(h))
  {
    SortSorts(Ages(h), Ascending(Acausal(h)));
  }

  /** Every retained job is listed exactly once. */
  lemma {:induction false} IterListsOnce(h: View)
    requires Agrees(h)
    ensures Distinct(Iter(h)) && forall j :: j in Iter(h) <==> j in h.status
  {
    LocalInOrder(h);
    LatestOnce(h.causal, {});
    var local, causal := Local(h), Latest(h.causal, {});
    forall i, k | 0 <= i < |local| && 0 <= k < |causal|
      ensures local[i] != causal[k]
    {
      assert local[i] in local && causal[k] in causal;
    }
  }

  /** The list falls in two: jobs without causal entries, newest time first, and
      then the jobs with them. */
  lemma {:induction false} IterLocalFirst(h: View)
    ensures InOrder(Ages(h), Iter(h)[..|Local(h)|])
    ensures forall i :: 0 <= i < |Iter(h)| ==> (Iter(h)[i] in Acausal(h) <==> i < |Local(h)|)
  {
    LocalInOrder(h);
    LatestOnce(h.causal, {});
    var local, causal := Local(h), Latest(h.causal, {});
    assert Iter(h)[..|local|] == local;
    assert forall i :: |local| <= i < |Iter(h)| ==> Iter(h)[i] in causal;
    assert forall i :: 0 <= i < |local| ==> Iter(h)[i] in local;
  }

  /** The jobs with causal entries come by their last one, newest first. */
  lemma {:induction false} IterNewestRankFirst(h: View, i: nat, k: nat, e: Entry, f: Entry)
    requires Sorted(h.causal) && |Local(h)| <= i < k < |Iter(h)|
    requires LastEntry(h.causal, Iter(h)[i], e) && LastEntry(h.causal, Iter(h)[k], f)
    ensures Before(f, e)
  {
    var n := |Local(h)|;
    assert Iter(h)[i] == Latest(h.causal, {})[i - n] && Iter(h)[k] == Latest(h.causal, {})[k - n];
    LatestInOrder(h.causal, {}, i - n, k - n, e, f);
  }

  // ---- The history in place

  class JobHistory {
    var causal: seq<Entry>
    var status: map<Job, StatusMap>
    var running: map<(Job, Sled), Time>

    constructor ()
      ensures Snapshot() == EMPTY
    {
      causal, status, running := [], map[], map[];
    }

    function Snapshot(): View
      reads this
    {
      View(causal, status, running)
    }

    method SetJobStatus(job: Job, sled: Sled, next: Status, rank: Option<Rank>, queued: set<Job>)
      requires Agrees(Snapshot())
      modifies this
      ensures Snapshot() == Set(old(Snapshot()), job, sled, next, rank, queued)
      ensures Agrees(Snapshot())
    {
      ghost var before := Snapshot();
      if next.Started? {
        running := running[(job, sled) := next.time];
      } else {
        running := running - {(job, sled)};
      }
      var known := if job in status then status[job] else map[];
      status := status[job := known[sled := next]];
      if rank.Some? {
        causal := Insert(causal, Entry(rank.value, job, sled));
      }
      assert Snapshot() == Updated(before, job, sled, next, rank);
      UpdateAgrees(before, job, sled, next, rank);
      Gc(queued);
      SetAgrees(before, Update(job, sled, next, rank, queued));
    }

    method TransitionJobStatus(job: Job, sled: Sled, rank: Option<Rank>,
                               transition: Option<Status> -> Option<Status>, queued: set<Job>)
      returns (result: Option<Status>)
      requires Agrees(Snapshot())
      modifies this
      ensures var known := if job in old(status) && sled in old(status)[job] then Some(old(status)[job][sled]) else None;
              && result == transition(known)
              && Snapshot() == if result.Some? then Set(old(Snapshot()), job, sled, result.value, rank, queued)
                               else old(Snapshot())
      ensures Agrees(Snapshot())
    {
      var known := if job in status && sled in status[job] then Some(status[job][sled]) else None;
      result := transition(known);
      if result.Some? {
        SetJobStatus(job, sled, result.value, rank, queued);
      }
    }

    /** The set of jobs with causal entries is taken once; it stays right for every
        job that is still there, because a job goes with all its entries. */
    method Gc(queued: set<Job>)
      requires Agrees(Snapshot())
      modifies this
      ensures Snapshot() == Collected(old(Snapshot()), queued)
    {
      if |status| <= MAX_HISTORY {
        return;
      }
      var ineligible := queued + RunningJobs(running);
      var named := JobsOf(causal);
      var done := false;
      while |status| > LOW_WATER_MARK && !done
        invariant running == old(running)
        invariant forall j <- status :: j in named <==> j in JobsOf(causal)
        invariant Evict(old(Snapshot()), ineligible) == Evict(Snapshot(), ineligible)
        invariant done ==> Victim(Snapshot(), ineligible).None?
        decreases |status|, !done
      {
        var local := set j <- status | j !in ineligible && j !in named;
        assert local == Acausal(Snapshot()) - ineligible;
        var victim: Option<Job> := None;
        if local != {} {
          victim := Some(Least(local));
        } else {
          var first := Find(causal, status.Keys - ineligible);
          if first.Some? {
            victim := Some(first.value.job);
          }
        }
        assert victim == Victim(Snapshot(), ineligible);
        if victim.Some? {
          ghost var before := Snapshot();
          status := status - {victim.value};
          causal := Retain(causal, victim.value);
          assert status.Keys == before.status.Keys - {victim.value};
          assert Snapshot() == Without(before, victim.value);
        } else {
          done := true;
        }
      }
    }
  }
}
