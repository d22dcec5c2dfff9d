/** A mesh of gossip managers (server/src/gossip.rs) in which every peer starts
in a universe of its own: whatever the order of links, mismatches, lost drivers,
failed joins and peer changes, debts are owed only to universes that outrank
ours, every migration raises a rank, and the mesh can always still converge on
the highest-ranked universe it began with.

Event counts are fixed and peers do not restart. An address is a position in the
mesh. */
module GossipMesh {
  import opened Gossip
  import opened Wrappers

  type Mesh = seq<State>

  datatype Event =
    | Tick(at: Addr)
    | Peers(at: Addr, want: seq<Addr>)
    | Accept(at: Addr, from: Addr)
    | Dialed(at: Addr, id: nat, peer: Addr, linked: bool)
    | Meet(at: Addr, id: nat)      // a driver's session reports a universe mismatch
    | Break(at: Addr, id: nat)     // a driver's link fails
    | Reap(at: Addr, id: nat)      // the manager hears that a driver stopped
    | Panic(at: Addr, id: nat)     // a driver ends without a report
    | Join(at: Addr, ok: bool)

  /** While a manager waits for a join it handles nothing else. */
  ghost predicate Enabled(m: Mesh, e: Event) {
    && e.at < |m|
    && (e.Meet? || e.Break? || e.Join? || m[e.at].migrating.None?)
    && match e
       case Tick(_) => true
       case Peers(_, _) => true
       case Accept(_, from) => from < |m|
       case Dialed(_, _, peer, _) => peer < |m|
       case Meet(at, id) =>
         id in m[at].drivers && m[at].drivers[id].outcome.None? && m[at].drivers[id].peer < |m|
         && m[m[at].drivers[id].peer].rumors != m[at].drivers[id].born
       case Break(at, id) => id in m[at].drivers && m[at].drivers[id].outcome.None?
       case Reap(at, id) => id in m[at].drivers && m[at].drivers[id].outcome.Some?
       case Panic(at, id) => id in m[at].drivers && m[at].drivers[id].outcome.None?
       case Join(at, _) => m[at].migrating.Some? && m[at].migrating.value < |m|
  }

  ghost function Settle(s: State, id: nat, outcome: Stopped): State
    requires id in s.drivers
  {
    s.(drivers := s.drivers[id := s.drivers[id].(outcome := Some(outcome))])
  }

  ghost function Local(m: Mesh, e: Event): State
    requires Enabled(m, e)
  {
    var s := m[e.at];
    match e
    case Tick(_) => LinkAbsent(s, s.peers)
    case Peers(_, want) => LinkAbsent(Prune(s, want), want)
    case Accept(_, from) => OnLink(s, from)
    case Dialed(_, id, peer, linked) => OnDial(s, id, peer, linked)
    case Meet(_, id) =>
      Settle(s, id, SessionOutcome(s.drivers[id].born, m[s.drivers[id].peer].rumors))
    case Break(_, id) => Settle(s, id, Failed)
    case Reap(_, id) => OnDriver(s, id)
    case Panic(_, id) => OnPanic(s, id)
    case Join(_, ok) => EndMigrate(s, if ok then Some(m[s.migrating.value].rumors) else None)
  }

  ghost function Next(m: Mesh, e: Event): (r: Mesh)
    requires Enabled(m, e)
    ensures |r| == |m|
  {
    m[e.at := Local(m, e)]
  }

  /** Every peer alone in its own universe, with nothing linked. */
  ghost predicate Init(m: Mesh) {
    && (forall p :: 0 <= p < |m| ==>
          m[p].drivers == map[] && m[p].live == map[] && m[p].joins == {} && m[p].migrating.None?)
    && (forall p, q :: 0 <= p < q < |m| ==> m[p].rumors != m[q].rumors)
  }

  // ---- The invariant

  ghost predicate DebtsOutrank(m: Mesh, s: State) {
    && (forall q :: q in s.joins ==> q < |m| && Outranks(m[q].rumors, s.rumors))
    && (s.migrating.Some? ==> s.migrating.value in s.joins)
  }

  /** A link on the books is driven in our present universe, and none is while
      we leave it. */
  ghost predicate LiveIsCurrent(s: State) {
    && (forall q :: q in s.live ==>
          s.live[q] in s.drivers && s.drivers[s.live[q]].peer == q && s.drivers[s.live[q]].born == s.rumors)
    && (s.migrating.Some? ==> s.live == map[])
  }

  ghost predicate DriversAreHonest(m: Mesh, s: State) {
    forall id :: id in s.drivers ==>
      && id < s.nextId
      && (s.drivers[id].outcome == Some(Dominated) ==>
            s.drivers[id].peer < |m| && Outranks(m[s.drivers[id].peer].rumors, s.drivers[id].born))
  }

  ghost predicate PeerInv(m: Mesh, s: State) {
    DebtsOutrank(m, s) && LiveIsCurrent(s) && DriversAreHonest(m, s)
  }

  ghost predicate Inv(m: Mesh) {
    forall p :: 0 <= p < |m| ==> PeerInv(m, m[p])
  }

  ghost predicate Rises(before: Universe, after: Universe) {
    after == before || Outranks(after, before)
  }

  /** Other peers that rise keep our debts and our drivers honest. */
  lemma {:induction false} Frame(m: Mesh, n: Mesh, s: State)
    requires |n| == |m| && forall p :: 0 <= p < |m| ==> Rises(m[p].rumors, n[p].rumors)
    requires PeerInv(m, s)
    ensures PeerInv(n, s)
  {
  }

  lemma {:induction false} DriveKeeps(m: Mesh, s: State, peer: Addr)
    requires PeerInv(m, s) && s.migrating.None?
    ensures PeerInv(m, Drive(s, peer))
  {
  }

  lemma {:induction false} OnLinkKeeps(m: Mesh, s: State, peer: Addr)
    requires PeerInv(m, s) && s.migrating.None?
    ensures PeerInv(m, OnLink(s, peer)) && OnLink(s, peer).rumors == s.rumors
  {
    DriveKeeps(m, s, peer);
  }

  lemma {:induction false} LinkAbsentKeeps(m: Mesh, s: State, wanted: seq<Addr>)
    requires PeerInv(m, s)
    ensures PeerInv(m, LinkAbsent(s, wanted)) && LinkAbsent(s, wanted).rumors == s.rumors
  {
    LinkAbsentOnlyDials(s, wanted);
  }

  /** A stale driver's report changes no debt: the one on the books was started
      in the universe we are in now. */
  lemma {:induction false} ReapKeeps(m: Mesh, s: State, id: nat)
    requires PeerInv(m, s) && id in s.drivers && s.drivers[id].outcome.Some?
    ensures PeerInv(m, OnDriver(s, id)) && OnDriver(s, id).rumors == s.rumors
  {
    var d := s.drivers[id];
    forall q | q in OnDriver(s, id).live ensures s.live[q] != id {
      assert s.drivers[s.live[q]].peer == q;
    }
  }

  lemma {:induction false} PruneKeeps(m: Mesh, s: State, want: seq<Addr>)
    requires PeerInv(m, s) && s.migrating.None?
    ensures PeerInv(m, Prune(s, want))
  {
  }

  lemma {:induction false} LocalKeeps(m: Mesh, e: Event)
    requires Inv(m) && Enabled(m, e) && !e.Join?
    ensures PeerInv(m, Local(m, e)) && Local(m, e).rumors == m[e.at].rumors
  {
    var s := m[e.at];
    match e {
      case Tick(_) => LinkAbsentKeeps(m, s, s.peers);
      case Peers(_, want) =>
        PruneKeeps(m, s, want);
        LinkAbsentKeeps(m, Prune(s, want), want);
      case Accept(_, from) => OnLinkKeeps(m, s, from);
      case Dialed(_, id, peer, linked) =>
        OnLinkKeeps(m, s.(dialing := s.dialing - {peer}), peer);
      case Meet(_, id) =>
      case Break(_, id) =>
      case Reap(_, id) => ReapKeeps(m, s, id);
      case Panic(_, id) =>
    }
  }

  /** A successful join lands in a universe that outranks the one we left, and
      forgives every debt. */
  lemma {:induction false} JoinKeeps(m: Mesh, at: Addr, ok: bool)
    requires Inv(m) && Enabled(m, Join(at, ok))
    ensures var s := Local(m, Join(at, ok));
      && PeerInv(m, s)
      && s.rumors == (if ok then m[m[at].migrating.value].rumors else m[at].rumors)
      && (ok ==> Outranks(s.rumors, m[at].rumors) && s.joins == {})
  {
    var s := m[at];
    assert PeerInv(m, s);
    var settled := (if ok then Adopt(s, m[s.migrating.value].rumors) else s).(migrating := None);
    LinkAbsentKeeps(m, settled, s.peers);
    LinkAbsentOnlyDials(settled, s.peers);
  }

  lemma {:induction false} StepKeeps(m: Mesh, e: Event)
    requires Inv(m) && Enabled(m, e)
    ensures Inv(Next(m, e))
    ensures forall p :: 0 <= p < |m| ==> Rises(m[p].rumors, Next(m, e)[p].rumors)
  {
    match e {
      case Join(at, ok) => JoinKeeps(m, at, ok);
      case _ => LocalKeeps(m, e);
    }
    var n := Next(m, e);
    forall p | 0 <= p < |n| ensures PeerInv(n, n[p]) {
      Frame(m, n, n[p]);
    }
  }

  // ---- Runs

  ghost predicate Follows(m: Mesh, es: seq<Event>)
    decreases |es|
  {
    |es| > 0 ==> Enabled(m, es[0]) && Follows(Next(m, es[0]), es[1..])
  }

  ghost function After(m: Mesh, es: seq<Event>): (r: Mesh)
    requires Follows(m, es)
    ensures |r| == |m|
    decreases |es|
  {
    if |es| == 0 then m else After(Next(m, es[0]), es[1..])
  }

  lemma {:induction false} RunKeeps(m: Mesh, es: seq<Event>)
    requires Inv(m) && Follows(m, es)
    ensures Inv(After(m, es))
    ensures forall p :: 0 <= p < |m| ==> Rises(m[p].rumors, After(m, es)[p].rumors)
    decreases |es|
  {
    if |es| > 0 {
      StepKeeps(m, es[0]);
      RunKeeps(Next(m, es[0]), es[1..]);
    }
  }

  /** Over every run, a recorded debt is owed to a peer in a universe that
      strictly outranks ours. */
  lemma {:induction false} EveryDebtOutranks(m: Mesh, es: seq<Event>, p: Addr, q: Addr)
    requires Init(m) && Follows(m, es) && p < |m| && q in After(m, es)[p].joins
    ensures q < |m| && Outranks(After(m, es)[q].rumors, After(m, es)[p].rumors)
  {
    RunKeeps(m, es);
    assert PeerInv(After(m, es), After(m, es)[p]);
  }

  /** Over every run, a report from a driver that was started in another universe
      than our present one records no debt. */
  lemma {:induction false} StaleReportsRecordNothing(m: Mesh, es: seq<Event>, p: Addr, id: nat)
    requires Init(m) && Follows(m, es) && Enabled(After(m, es), Reap(p, id))
    requires After(m, es)[p].drivers[id].born != After(m, es)[p].rumors
    ensures var n := After(m, es);
      OnDriver(n[p], id).joins == n[p].joins && OnDriver(n[p], id).live == n[p].live
  {
    RunKeeps(m, es);
    assert PeerInv(After(m, es), After(m, es)[p]);
  }

  // ---- Migrations are bounded

  ghost function Universes(m: Mesh): set<Universe> {
    set p | 0 <= p < |m| :: m[p].rumors
  }

  /** How many of `all` the universe outranks. */
  ghost function Height(u: Universe, all: set<Universe>): nat {
    |set v | v in all && Outranks(u, v)|
  }

  ghost function Sum(m: Mesh, all: set<Universe>): nat {
    if |m| == 0 then 0 else Height(m[0].rumors, all) + Sum(m[1..], all)
  }

  lemma {:induction false} HigherIsHigher(u: Universe, v: Universe, all: set<Universe>)
    requires Outranks(u, v) && v in all
    ensures Height(u, all) > Height(v, all)
  {
    var below, above := set x | x in all && Outranks(v, x), set x | x in all && Outranks(u, x);
    assert below < above by { assert v in above && v !in below; }
    SmallerSet(below, above);
  }

  lemma {:induction false} SmallerSet<T>(a: set<T>, b: set<T>)
    requires a < b
    ensures |a| < |b|
  {
    assert b == a + (b - a);
  }

  lemma {:induction false} HeightBound(u: Universe, all: set<Universe>)
    requires u in all
    ensures Height(u, all) < |all|
  {
    var below := set x | x in all && Outranks(u, x);
    assert u !in below;
    SmallerSet(below, all);
  }

  lemma {:induction false} SumUpdate(m: Mesh, all: set<Universe>, p: Addr, s: State)
    requires p < |m|
    ensures Sum(m[p := s], all) == Sum(m, all) - Height(m[p].rumors, all) + Height(s.rumors, all)
  {
    if p == 0 {
      assert m[0 := s][1..] == m[1..];
    } else {
      SumUpdate(m[1..], all, p - 1, s);
      assert m[p := s][1..] == m[1..][p - 1 := s];
    }
  }

  lemma {:induction false} SumBound(m: Mesh, all: set<Universe>, k: nat)
    requires forall p :: 0 <= p < |m| ==> Height(m[p].rumors, all) <= k
    ensures Sum(m, all) <= |m| * k
  {
    if |m| > 0 {
      SumBound(m[1..], all, k);
      assert |m| * k == k + (|m| - 1) * k;
    }
  }

  ghost predicate Within(m: Mesh, all: set<Universe>) {
    forall p :: 0 <= p < |m| ==> m[p].rumors in all
  }

  ghost predicate Migration(e: Event) { e.Join? && e.ok }

  ghost function Migrations(es: seq<Event>): nat {
    if |es| == 0 then 0 else (if Migration(es[0]) then 1 else 0) + Migrations(es[1..])
  }

  lemma {:induction false} StepClimbs(m: Mesh, e: Event, all: set<Universe>)
    requires Inv(m) && Enabled(m, e) && Within(m, all)
    ensures Within(Next(m, e), all)
    ensures if Migration(e) then Sum(Next(m, e), all) > Sum(m, all) else Sum(Next(m, e), all) == Sum(m, all)
  {
    SumUpdate(m, all, e.at, Local(m, e));
    match e {
      case Join(at, ok) =>
        JoinKeeps(m, at, ok);
        if ok {
          HigherIsHigher(Local(m, e).rumors, m[at].rumors, all);
        }
      case _ => LocalKeeps(m, e);
    }
  }

  lemma {:induction false} RunClimbs(m: Mesh, es: seq<Event>, all: set<Universe>)
    requires Inv(m) && Follows(m, es) && Within(m, all)
    ensures Within(After(m, es), all)
    ensures Sum(After(m, es), all) >= Sum(m, all) + Migrations(es)
    decreases |es|
  {
    if |es| > 0 {
      StepClimbs(m, es[0], all);
      StepKeeps(m, es[0]);
      RunClimbs(Next(m, es[0]), es[1..], all);
    }
  }

  ghost predicate AllDistinct(m: Mesh) {
    forall p, q :: 0 <= p < q < |m| ==> m[p].rumors != m[q].rumors
  }

  /** How many peers are in universes that `u` outranks, and that outrank `u`. */
  ghost function Below(m: Mesh, u: Universe): nat {
    if |m| == 0 then 0 else (if Outranks(u, m[0].rumors) then 1 else 0) + Below(m[1..], u)
  }

  ghost function Above(m: Mesh, u: Universe): nat {
    if |m| == 0 then 0 else (if Outranks(m[0].rumors, u) then 1 else 0) + Above(m[1..], u)
  }

  lemma {:induction false} FirstUniverse(m: Mesh)
    requires |m| > 0 && AllDistinct(m)
    ensures Universes(m) == Universes(m[1..]) + {m[0].rumors} && m[0].rumors !in Universes(m[1..])
  {
    assert forall p :: 0 < p < |m| ==> m[p] == m[1..][p - 1];
    forall u | u in Universes(m)
      ensures u in Universes(m[1..]) + {m[0].rumors}
    {
      var p: nat :| p < |m| && m[p].rumors == u;
      if p > 0 {
        assert m[1..][p - 1].rumors == u;
      }
    }
    forall u | u in Universes(m[1..])
      ensures u in Universes(m)
    {
      var p: nat :| p < |m[1..]| && m[1..][p].rumors == u;
      assert m[p + 1].rumors == u;
    }
  }

  lemma {:induction false} HeightOfMore(u: Universe, all: set<Universe>, v: Universe)
    requires v !in all
    ensures Height(u, all + {v}) == Height(u, all) + if Outranks(u, v) then 1 else 0
  {
    var below := set x | x in all && Outranks(u, x);
    var more := set x | x in all + {v} && Outranks(u, x);
    assert more == if Outranks(u, v) then below + {v} else below;
  }

  lemma {:induction false} HeightIsBelow(m: Mesh, u: Universe)
    requires AllDistinct(m)
    ensures Height(u, Universes(m)) == Below(m, u)
  {
    if |m| == 0 {
      assert Universes(m) == {};
      assert (set x | x in Universes(m) && Outranks(u, x)) == {};
    } else {
      FirstUniverse(m);
      HeightOfMore(u, Universes(m[1..]), m[0].rumors);
      HeightIsBelow(m[1..], u);
    }
  }

  lemma {:induction false} SumOfMore(m: Mesh, all: set<Universe>, u: Universe)
    requires u !in all
    ensures Sum(m, all + {u}) == Sum(m, all) + Above(m, u)
  {
    if |m| > 0 {
      HeightOfMore(m[0].rumors, all, u);
      SumOfMore(m[1..], all, u);
    }
  }

  lemma {:induction false} OneSideOrOther(m: Mesh, u: Universe)
    requires u !in Universes(m)
    ensures Below(m, u) + Above(m, u) == |m|
  {
    if |m| > 0 {
      assert m[0].rumors in Universes(m);
      DominationIsATotalOrder(u, m[0].rumors, u);
      forall v | v in Universes(m[1..])
        ensures v in Universes(m)
      {
        var p: nat :| p < |m[1..]| && m[1..][p].rumors == v;
        assert m[p + 1].rumors == v;
      }
      OneSideOrOther(m[1..], u);
    }
  }

  /** The first peer is in one pair with each of the others. */
  lemma {:induction false} SumOfFirst(m: Mesh)
    requires |m| > 0 && AllDistinct(m)
    ensures Sum(m, Universes(m)) == Sum(m[1..], Universes(m[1..])) + |m| - 1
  {
    var u, rest := m[0].rumors, m[1..];
    FirstUniverse(m);
    HeightOfMore(u, Universes(rest), u);
    HeightIsBelow(rest, u);
    SumOfMore(rest, Universes(rest), u);
    OneSideOrOther(rest, u);
  }

  lemma {:induction false} OneMore(n: nat)
    ensures (n + 1) * n == n * (n - 1) + 2 * n
  {
  }

  /** Peers in universes of their own: each pair counts once. */
  lemma {:induction false} SumIsPairs(m: Mesh, n: nat)
    requires AllDistinct(m) && n == |m|
    ensures 2 * Sum(m, Universes(m)) == n * (n - 1)
  {
    if n > 0 {
      SumOfFirst(m);
      SumIsPairs(m[1..], n - 1);
      OneMore(n - 1);
    }
  }

  /** However long a run, `n` peers migrate at most `n * (n - 1) / 2` times in all. */
  lemma {:induction false} MigrationsAreBounded(m: Mesh, es: seq<Event>)
    requires Init(m) && Follows(m, es)
    ensures 2 * Migrations(es) <= |m| * (|m| - 1)
  {
    var all, n := Universes(m), |m|;
    RunClimbs(m, es, all);
    SumIsPairs(m, n);
    UniversesAreFew(m, n);
    assert all == Prefix(m, n);
    SumWithin(After(m, es), all, n);
  }

  lemma {:induction false} SumWithin(m: Mesh, all: set<Universe>, n: nat)
    requires |m| == n && Within(m, all) && |all| <= n
    ensures Sum(m, all) <= n * (n - 1)
  {
    if n > 0 {
      forall p | 0 <= p < |m|
        ensures Height(m[p].rumors, all) <= n - 1
      {
        HeightBound(m[p].rumors, all);
      }
      SumBound(m, all, n - 1);
    }
  }

  ghost function Prefix(m: Mesh, n: nat): set<Universe>
    requires n <= |m|
  {
    set p | 0 <= p < n :: m[p].rumors
  }

  lemma {:induction false} UniversesAreFew(m: Mesh, n: nat)
    requires n <= |m|
    ensures |Prefix(m, n)| <= n
  {
    if n > 0 {
      UniversesAreFew(m, n - 1);
      assert Prefix(m, n) == Prefix(m, n - 1) + {m[n - 1].rumors};
    }
  }

  // ---- Convergence

  /** The highest-ranked universe of the mesh. */
  ghost predicate IsTop(m: Mesh, u: Universe) {
    && (exists p :: 0 <= p < |m| && m[p].rumors == u)
    && forall p :: 0 <= p < |m| ==> !Outranks(m[p].rumors, u)
  }

  /** Some peer began in `u`, no peer with more events, and none with as many and a
      lesser network. */
  ghost predicate Largest(m: Mesh, u: Universe) {
    && (exists p :: 0 <= p < |m| && m[p].rumors == u)
    && forall p :: 0 <= p < |m| ==>
         m[p].rumors.events < u.events || (m[p].rumors.events == u.events && u.network <= m[p].rumors.network)
  }

  /** The highest-ranked universe is the largest. */
  lemma {:induction false} TopIsLargest(m: Mesh, u: Universe)
    ensures IsTop(m, u) <==> Largest(m, u)
  {
    forall p | 0 <= p < |m|
      ensures !Outranks(m[p].rumors, u) <==>
              m[p].rumors.events < u.events || (m[p].rumors.events == u.events && u.network <= m[p].rumors.network)
    {
      LargerUniverseWins(m[p].rumors, u);
      LargerUniverseWins(u, m[p].rumors);
    }
  }

  ghost predicate Path(path: seq<Addr>, links: set<(Addr, Addr)>) {
    forall i :: 0 <= i < |path| - 1 ==> (path[i], path[i + 1]) in links || (path[i + 1], path[i]) in links
  }

  ghost predicate Connected(n: nat, links: set<(Addr, Addr)>) {
    && (forall l :: l in links ==> l.0 < n && l.1 < n)
    && forall p, q :: 0 <= p < n && 0 <= q < n ==> Linked(p, q, links)
  }

  ghost predicate Linked(p: Addr, q: Addr, links: set<(Addr, Addr)>) {
    exists path :: |path| > 0 && path[0] == p && path[|path| - 1] == q && Path(path, links)
  }

  /** No session on any link could report a mismatch. */
  ghost predicate NoMismatch(m: Mesh, links: set<(Addr, Addr)>) {
    forall l :: l in links && l.0 < |m| && l.1 < |m| ==> m[l.0].rumors == m[l.1].rumors
  }

  lemma {:induction false} PathAgrees(m: Mesh, links: set<(Addr, Addr)>, path: seq<Addr>, i: nat)
    requires NoMismatch(m, links) && Path(path, links) && i < |path|
    requires forall l :: l in links ==> l.0 < |m| && l.1 < |m|
    requires path[0] < |m|
    ensures path[i] < |m| && m[path[i]].rumors == m[path[0]].rumors
  {
    if i > 0 {
      PathAgrees(m, links, path, i - 1);
      assert (path[i - 1], path[i]) in links || (path[i], path[i - 1]) in links;
    }
  }

  /** The founder of the highest-ranked universe never leaves it. */
  lemma {:induction false} TopStays(m: Mesh, es: seq<Event>, u: Universe)
    requires Init(m) && Follows(m, es) && IsTop(m, u)
    ensures exists p :: 0 <= p < |m| && After(m, es)[p].rumors == u
    ensures IsTop(After(m, es), u)
  {
    RunKeeps(m, es);
    RunClimbs(m, es, Universes(m));
    var n := After(m, es);
    var p :| 0 <= p < |m| && m[p].rumors == u;
    forall q | 0 <= q < |m| ensures !Outranks(n[q].rumors, u) {
      assert n[q].rumors in Universes(m);
    }
    assert Rises(m[p].rumors, n[p].rumors);
  }

  /** A connected mesh with no mismatch left is in one universe, the
      highest-ranked of those it began with. */
  lemma {:induction false} QuietMeansConverged(m: Mesh, es: seq<Event>, links: set<(Addr, Addr)>, u: Universe)
    requires Init(m) && Follows(m, es) && IsTop(m, u)
    requires Connected(|m|, links) && NoMismatch(After(m, es), links)
    ensures forall p :: 0 <= p < |m| ==> After(m, es)[p].rumors == u
  {
    TopStays(m, es, u);
    var n := After(m, es);
    var k: nat :| k < |m| && n[k].rumors == u;
    forall p: nat | p < |m| ensures n[p].rumors == u {
      assert Linked(k, p, links);
      var path :| |path| > 0 && path[0] == k && path[|path| - 1] == p && Path(path, links);
      PathAgrees(n, links, path, |path| - 1);
    }
  }

  /** `p` drives a link to `q`, and its session could report no mismatch. */
  ghost predicate Agreeing(m: Mesh, p: Addr, q: Addr) {
    && p < |m| && q < |m| && q in m[p].live
    && m[p].live[q] in m[p].drivers && m[p].drivers[m[p].live[q]].outcome.None?
    && !Enabled(m, Meet(p, m[p].live[q]))
  }

  /** A mesh held together by running drivers none of which has a mismatch to report
      is in one universe, the highest-ranked of those it began with. */
  lemma {:induction false} SilenceMeansConverged(m: Mesh, es: seq<Event>, links: set<(Addr, Addr)>, u: Universe)
    requires Init(m) && Follows(m, es) && IsTop(m, u) && Connected(|m|, links)
    requires forall l <- links :: Agreeing(After(m, es), l.0, l.1)
    ensures forall p :: 0 <= p < |m| ==> After(m, es)[p].rumors == u
  {
    RunKeeps(m, es);
    var n := After(m, es);
    forall l | l in links
      ensures n[l.0].rumors == n[l.1].rumors
    {
      assert PeerInv(n, n[l.0]);
      assert n[l.0].drivers[n[l.0].live[l.1]].peer == l.1;
    }
    QuietMeansConverged(m, es, links, u);
  }

  // ---- Convergence stays within reach

  ghost predicate Reaches(m: Mesh, es: seq<Event>, n: Mesh) {
    Follows(m, es) && After(m, es) == n
  }

  lemma {:induction false} Extend(m: Mesh, es: seq<Event>, n: Mesh, fs: seq<Event>)
    requires Reaches(m, es, n) && Follows(n, fs)
    ensures Reaches(m, es + fs, After(n, fs)) && Migrations(es + fs) == Migrations(es) + Migrations(fs)
    decreases |es|
  {
    if |es| == 0 {
      assert es + fs == fs;
    } else {
      Extend(Next(m, es[0]), es[1..], n, fs);
      assert (es + fs)[1..] == es[1..] + fs;
    }
  }

  lemma {:induction false} Once(m: Mesh, es: seq<Event>, n: Mesh, e: Event) returns (fs: seq<Event>)
    requires Reaches(m, es, n) && Enabled(n, e)
    ensures Reaches(m, fs, Next(n, e)) && Migrations(fs) == Migrations(es) + Migrations([e])
  {
    assert [e][1..] == [];
    assert Follows(n, [e]) && After(n, [e]) == Next(n, e);
    Extend(m, es, n, [e]);
    fs := es + [e];
  }

  /** A peer waiting for a join can give it up. */
  lemma {:induction false} Settled(m: Mesh, p: Addr) returns (es: seq<Event>, n: Mesh)
    requires Inv(m) && p < |m|
    ensures Reaches(m, es, n) && Migrations(es) == 0 && n[p].migrating.None?
    ensures forall q :: 0 <= q < |m| ==> n[q].rumors == m[q].rumors
  {
    es, n := [], m;
    if m[p].migrating.Some? {
      assert PeerInv(m, m[p]);
      es := Once(m, es, m, Join(p, false));
      n := Next(m, Join(p, false));
      JoinKeeps(m, p, false);
      LinkAbsentOnlyDials(m[p].(migrating := None), m[p].peers);
    }
  }

  /** A peer that is outranked over a link comes to owe the debt. */
  lemma {:induction false} Indebted(m: Mesh, p: Addr, q: Addr) returns (es: seq<Event>, n: Mesh)
    requires p < |m| && q < |m| && m[p].migrating.None? && Outranks(m[q].rumors, m[p].rumors)
    ensures Reaches(m, es, n) && Migrations(es) == 0 && n[p].migrating.None? && q in n[p].joins
    ensures forall r :: 0 <= r < |m| ==> n[r].rumors == m[r].rumors
  {
    es, n := [], m;
    if q !in m[p].joins {
      var id := m[p].nextId;
      es := Once(m, es, n, Accept(p, q));
      n := Next(n, Accept(p, q));
      assert n[p].drivers[id] == Driver(q, m[p].rumors, None) && n[p].live[q] == id;
      es := Once(m, es, n, Meet(p, id));
      n := Next(n, Meet(p, id));
      assert n[p].drivers[id] == Driver(q, m[p].rumors, Some(Dominated)) && n[p].live[q] == id;
      es := Once(m, es, n, Reap(p, id));
      n := Next(n, Reap(p, id));
    }
  }

  /** From every reachable mesh in which `q` outranks `p`, `p` can still migrate
      upward. */
  lemma {:induction false} CanMigrate(m: Mesh, p: Addr, q: Addr) returns (es: seq<Event>)
    requires Inv(m) && p < |m| && q < |m| && Outranks(m[q].rumors, m[p].rumors)
    ensures Follows(m, es) && Migrations(es) == 1
    ensures After(m, es)[p].rumors == m[q].rumors
    ensures forall r :: 0 <= r < |m| && r != p ==> After(m, es)[r].rumors == m[r].rumors
  {
    var n, x;
    es, n := Settled(m, p);
    RunKeeps(m, es);
    var fs;
    fs, x := Indebted(n, p, q);
    Extend(m, es, n, fs);
    es := es + fs;
    es := Once(m, es, x, Accept(p, q));
    var y := Next(x, Accept(p, q));
    assert y[p].migrating == Some(q);
    es := Once(m, es, y, Join(p, true));
    LinkAbsentOnlyDials(Adopt(y[p], y[q].rumors).(migrating := None), y[p].peers);
  }

  /** From every mesh a run can reach, some continuation ends with no mismatch on
      any link, that is, with the mesh converged. */
  lemma {:induction false} CanConverge(m: Mesh, links: set<(Addr, Addr)>, all: set<Universe>) returns (es: seq<Event>)
    requires Inv(m) && Within(m, all) && |m| > 0
    ensures Follows(m, es) && NoMismatch(After(m, es), links)
    decreases |m| * |all| - Sum(m, all)
  {
    es := [];
    if !NoMismatch(m, links) {
      var l :| l in links && l.0 < |m| && l.1 < |m| && m[l.0].rumors != m[l.1].rumors;
      DominationIsATotalOrder(m[l.0].rumors, m[l.1].rumors, m[l.0].rumors);
      if Outranks(m[l.1].rumors, m[l.0].rumors) {
        es := CanMigrate(m, l.0, l.1);
      } else {
        es := CanMigrate(m, l.1, l.0);
      }
      var n := After(m, es);
      RunKeeps(m, es);
      RunClimbs(m, es, all);
      forall p | 0 <= p < |n| ensures Height(n[p].rumors, all) <= |all| {
        HeightBound(n[p].rumors, all);
      }
      SumBound(n, all, |all|);
      var fs := CanConverge(n, links, all);
      Extend(m, es, n, fs);
      es := es + fs;
    }
  }

  /** Whatever has happened, the mesh can still end up, all of it, in the
      highest-ranked universe it began with. */
  lemma {:induction false} ConvergenceStaysReachable(m: Mesh, es: seq<Event>, links: set<(Addr, Addr)>, u: Universe)
    returns (fs: seq<Event>)
    requires Init(m) && Follows(m, es) && IsTop(m, u) && Connected(|m|, links) && |m| > 0
    ensures es <= fs && Follows(m, fs)
    ensures forall p :: 0 <= p < |m| ==> After(m, fs)[p].rumors == u
    ensures Largest(m, u)
  {
    TopIsLargest(m, u);
    var n := After(m, es);
    RunKeeps(m, es);
    RunClimbs(m, es, Universes(m));
    var rest := CanConverge(n, links, Universes(m));
    Extend(m, es, n, rest);
    fs := es + rest;
    QuietMeansConverged(m, fs, links, u);
  }
}
