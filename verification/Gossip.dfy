/** The gossip manager of one peer (server/src/gossip.rs): the links it drives,
the peers whose universes beat its own, and how it leaves for one of them. */
module Gossip {
  import opened Wrappers

  /** A universe, with the least event count its members report for it. */
  datatype Universe = Universe(network: nat, events: nat)

  type Addr = nat

  datatype Stopped = Dominated | Failed

  /** A session driver: the peer it talks to, the universe it was started in, and
      why it stopped, once it has. It is kept until the manager hears of its end,
      on the books or not. */
  datatype Driver = Driver(peer: Addr, born: Universe, outcome: Option<Stopped>)

  datatype State = State(
    ours: Addr,
    peers: seq<Addr>,
    rumors: Universe,
    drivers: map<nat, Driver>,
    live: map<Addr, nat>,
    dialing: map<Addr, nat>,
    joins: set<Addr>,
    migrating: Option<Addr>,
    nextId: nat)

  // ---- Which universe wins

  /** The other side wins with more events, or with as many and the lesser
      network. */
  predicate RemoteDominates(localEvents: nat, remoteEvents: nat, localNetwork: nat, remoteNetwork: nat) {
    remoteEvents > localEvents || (remoteEvents == localEvents && remoteNetwork < localNetwork)
  }

  predicate Outranks(a: Universe, b: Universe) {
    RemoteDominates(b.events, a.events, b.network, a.network)
  }

  /** Both sides of a mismatch agree on who leaves, and so does everybody else:
      domination is a strict total order. */
  lemma {:induction false} DominationIsATotalOrder(a: Universe, b: Universe, c: Universe)
    ensures !(Outranks(a, b) && Outranks(b, a))
    ensures a != b <==> Outranks(a, b) || Outranks(b, a)
    ensures Outranks(a, b) && Outranks(b, c) ==> Outranks(a, c)
  {
  }

  /** The larger universe wins, and of two as large the one with the lesser network:
      never the smaller one. */
  lemma {:induction false} LargerUniverseWins(a: Universe, b: Universe)
    ensures a.events > b.events ==> Outranks(a, b) && !Outranks(b, a)
    ensures a.events == b.events && a.network < b.network ==> Outranks(a, b) && !Outranks(b, a)
    ensures SessionOutcome(b, a) == Dominated <==> Outranks(a, b)
  {
  }

  /** Why a session that found the peer in universe `remote` stops. */
  function SessionOutcome(born: Universe, remote: Universe): Stopped {
    if RemoteDominates(born.events, remote.events, born.network, remote.network) then Dominated else Failed
  }

  // ---- What each event does

  /** The new driver takes the peer over. The old one is told to stop, but until it
      does it may still end in any way and report. */
  function Drive(s: State, peer: Addr): State {
    s.(drivers := s.drivers[s.nextId := Driver(peer, s.rumors, None)],
       live := s.live[peer := s.nextId],
       nextId := s.nextId + 1)
  }

  /** Every driver is told to stop, and none is on the books, before the join. */
  function BeginMigrate(s: State, peer: Addr): State {
    s.(live := map[], migrating := Some(peer))
  }

  /** A link from a creditor pays the debt; any other link gets a driver. */
  function OnLink(s: State, peer: Addr): State {
    if peer in s.joins then BeginMigrate(s, peer) else Drive(s, peer)
  }

  function Adopt(s: State, universe: Universe): State {
    s.(rumors := universe, joins := {})
  }

  /** The addresses the tiebreak makes ours to dial, and that have no link or
      dial yet, each get one. */
  function LinkAbsent(s: State, wanted: seq<Addr>): State
    decreases |wanted|
  {
    if |wanted| == 0 then s
    else
      var peer := wanted[0];
      var one := if peer >= s.ours || peer in s.live || peer in s.dialing then s
                 else s.(dialing := s.dialing[peer := s.nextId], nextId := s.nextId + 1);
      LinkAbsent(one, wanted[1..])
  }

  /** The join ended, having reached `joined` or failed. */
  function EndMigrate(s: State, joined: Option<Universe>): State {
    var settled := if joined.Some? then Adopt(s, joined.value) else s;
    LinkAbsent(settled.(migrating := None), s.peers)
  }

  function Cull(table: map<Addr, nat>, want: seq<Addr>): map<Addr, nat> {
    map a | a in table && a in want :: table[a]
  }

  function Prune(s: State, want: seq<Addr>): State {
    s.(peers := want,
       live := Cull(s.live, want),
       dialing := Cull(s.dialing, want),
       joins := set a | a in s.joins && a in want)
  }

  /** The manager hears that a driver stopped. It matters only if the driver is the
      one on the books for its peer: then the link goes, and a lost comparison
      becomes a debt. */
  function OnDriver(s: State, id: nat): State
    requires id in s.drivers && s.drivers[id].outcome.Some?
  {
    var d := s.drivers[id];
    var reaped := s.(drivers := s.drivers - {id});
    if d.peer in s.live && s.live[d.peer] == id then
      reaped.(live := s.live - {d.peer},
              joins := if d.outcome.value.Dominated? then s.joins + {d.peer} else s.joins)
    else reaped
  }

  /** A driver panicked or was stopped before it had anything to report: its link,
      if still on the books, goes. */
  function OnPanic(s: State, id: nat): State {
    s.(drivers := s.drivers - {id},
       live := map a | a in s.live && s.live[a] != id :: s.live[a])
  }

  /** The manager hears that a dial ended. One that was forgotten or replaced in the
      meantime changes nothing. */
  function OnDial(s: State, id: nat, peer: Addr, linked: bool): State {
    if peer in s.dialing && s.dialing[peer] == id then
      var done := s.(dialing := s.dialing - {peer});
      if linked then OnLink(done, peer) else done
    else s
  }

  // ---- Facts used by every proof above this module

  /** Dialing changes neither links nor debts. */
  lemma {:induction false} LinkAbsentOnlyDials(s: State, wanted: seq<Addr>)
    ensures var t := LinkAbsent(s, wanted);
      && t == s.(dialing := t.dialing, nextId := t.nextId) && s.nextId <= t.nextId
      && (forall a :: a in s.dialing ==> a in t.dialing && t.dialing[a] == s.dialing[a])
      && (forall a :: a in t.dialing <==> a in s.dialing || (a in wanted && a < s.ours && a !in s.live))
      && (forall a :: a in t.dialing && a !in s.dialing ==> s.nextId <= t.dialing[a] < t.nextId)
    decreases |wanted|
  {
    if |wanted| > 0 {
      var peer := wanted[0];
      var one := if peer >= s.ours || peer in s.live || peer in s.dialing then s
                 else s.(dialing := s.dialing[peer := s.nextId], nextId := s.nextId + 1);
      LinkAbsentOnlyDials(one, wanted[1..]);
      assert forall a :: a in wanted <==> a == peer || a in wanted[1..];
    }
  }

  /** Pruning forgets exactly what concerns peers that are no longer wanted. */
  lemma {:induction false} PruneForgetsUnwanted(s: State, want: seq<Addr>)
    ensures var t := Prune(s, want);
      && t.peers == want && t.rumors == s.rumors && t.drivers == s.drivers && t.migrating == s.migrating
      && forall a :: a in want ==>
           && (a in t.joins <==> a in s.joins)
           && (a in t.live <==> a in s.live) && (a in s.live ==> t.live[a] == s.live[a])
           && (a in t.dialing <==> a in s.dialing) && (a in s.dialing ==> t.dialing[a] == s.dialing[a])
    ensures var t := Prune(s, want);
      forall a :: a !in want ==> a !in t.joins && a !in t.live && a !in t.dialing
  {
  }

  /** A dial that was forgotten or replaced changes nothing. One on the books is off
      them afterwards; its link gets a driver, or pays a debt, and its failure leaves
      links and debts alone. */
  lemma {:induction false} DialSettles(s: State, id: nat, peer: Addr, linked: bool)
    ensures var t := OnDial(s, id, peer, linked);
      if peer !in s.dialing || s.dialing[peer] != id then t == s
      else
        && peer !in t.dialing && t.rumors == s.rumors && t.joins == s.joins
        && (forall a :: a != peer ==> (a in t.dialing <==> a in s.dialing))
        && (!linked ==> t.live == s.live && t.drivers == s.drivers && t.migrating == s.migrating)
        && (linked && peer in s.joins ==> t.migrating == Some(peer) && t.live == map[])
        && (linked && peer !in s.joins ==>
              && peer in t.live && t.live[peer] in t.drivers
              && t.drivers[t.live[peer]] == Driver(peer, s.rumors, None)
              && forall a :: a in s.live && a != peer ==> a in t.live && t.live[a] == s.live[a])
  {
  }

  /** However a join ends, every peer that is ours to dial is linked or dialed
      afterwards, and we are in the universe joined, or still in our own with our
      debts. */
  lemma {:induction false} MigrationSettles(s: State, joined: Option<Universe>)
    ensures var t := EndMigrate(s, joined);
      && t.migrating == None && t.live == s.live
      && t.rumors == (if joined.Some? then joined.value else s.rumors)
      && t.joins == (if joined.Some? then {} else s.joins)
      && forall a :: a in s.peers && a < s.ours ==> a in t.live || a in t.dialing
  {
    var settled := if joined.Some? then Adopt(s, joined.value) else s;
    LinkAbsentOnlyDials(settled.(migrating := None), s.peers);
  }

  // ---- The manager

  class Manager {
    const ours: Addr
    var peers: seq<Addr>
    var rumors: Universe
    var published: Universe
    var drivers: map<nat, Driver>
    var live: map<Addr, nat>
    var dialing: map<Addr, nat>
    var joins: set<Addr>
    var migrating: Option<Addr>
    var nextId: nat

    ghost function View(): State
      reads this
    {
      State(ours, peers, rumors, drivers, live, dialing, joins, migrating, nextId)
    }

    constructor (ours: Addr, peers: seq<Addr>, seed: Universe)
      ensures View() == State(ours, peers, seed, map[], map[], map[], {}, None, 0) && published == seed
    {
      this.ours, this.peers, rumors, published := ours, peers, seed, seed;
      drivers, live, dialing, joins, migrating, nextId := map[], map[], map[], {}, None, 0;
    }

    method DialAbsent()
      modifies this
      ensures View() == LinkAbsent(old(View()), old(peers)) && published == old(published)
    {
      var i := 0;
      while i < |peers|
        invariant 0 <= i <= |peers| && peers == old(peers) && published == old(published)
        invariant LinkAbsent(View(), peers[i..]) == LinkAbsent(old(View()), peers)
      {
        var peer := peers[i];
        if peer < ours && peer !in live && peer !in dialing {
          dialing := dialing[peer := nextId];
          nextId := nextId + 1;
        }
        i := i + 1;
      }
    }

    method PeersChanged(want: seq<Addr>)
      modifies this
      ensures View() == LinkAbsent(Prune(old(View()), want), want) && published == old(published)
    {
      peers := want;
      live := Cull(live, want);
      dialing := Cull(dialing, want);
      joins := set a | a in joins && a in want;
      DialAbsent();
    }

    method StartDriver(peer: Addr)
      modifies this
      ensures View() == Drive(old(View()), peer) && published == old(published)
    {
      drivers := drivers[nextId := Driver(peer, rumors, None)];
      live := live[peer := nextId];
      nextId := nextId + 1;
    }

    method Linked(peer: Addr)
      modifies this
      ensures View() == OnLink(old(View()), peer) && published == old(published)
    {
      if peer in joins {
        live := map[];
        migrating := Some(peer);
      } else {
        StartDriver(peer);
      }
    }

    /** The join over the link ended; subscribers follow a new universe. */
    method Joined(joined: Option<Universe>)
      modifies this
      ensures View() == EndMigrate(old(View()), joined)
      ensures published == if joined.Some? then joined.value else old(published)
    {
      if joined.Some? {
        rumors := joined.value;
        published := rumors;
        joins := {};
      }
      migrating := None;
      DialAbsent();
    }

    method DriverDone(id: nat)
      requires id in drivers && drivers[id].outcome.Some?
      modifies this
      ensures View() == OnDriver(old(View()), id) && published == old(published)
    {
      var d := drivers[id];
      drivers := drivers - {id};
      if d.peer in live && live[d.peer] == id {
        live := live - {d.peer};
        if d.outcome.value.Dominated? {
          joins := joins + {d.peer};
        }
      }
    }

    method DialDone(id: nat, peer: Addr, linked: bool)
      modifies this
      ensures View() == OnDial(old(View()), id, peer, linked) && published == old(published)
    {
      if peer in dialing && dialing[peer] == id {
        dialing := dialing - {peer};
        if linked {
          Linked(peer);
        }
      }
    }
  }
}
