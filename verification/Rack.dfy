/** Each sled's check that a job names it (server/src/rack.rs), against the one
resolution made where the job came in. */
module Rack {
  import opened Bytes
  import opened Targets
  import opened Wrappers

  datatype SkipReason = CubbyUnknown | NotTargeted

  ghost predicate Injective(cubbies: Cubbies) {
    forall c, d :: c in cubbies && d in cubbies && cubbies[c] == cubbies[d] ==> c == d
  }

  /** The cubby a sled learns from a report: the least one said to hold it. */
  ghost predicate Holds(cubbies: Cubbies, b: Baseboard, own: Option<Byte>) {
    match own
    case Some(c) => c in cubbies && cubbies[c] == b && forall d <- cubbies :: cubbies[d] == b ==> c <= d
    case None => forall d <- cubbies :: cubbies[d] != b
  }

  function CheckTarget(own: Baseboard, ownCubby: Option<Byte>, target: Target, interactive: bool): Option<SkipReason> {
    if (target.IsSingle() || !interactive) && Matches(target, own, ownCubby) then None
    else if ownCubby.None? then Some(CubbyUnknown)
    else Some(NotTargeted)
  }

  class Sled {
    const own: Baseboard
    var ownCubby: Option<Byte>
    var cubbies: Cubbies

    constructor (own: Baseboard)
      ensures this.own == own && ownCubby == None && cubbies == map[]
    {
      this.own, ownCubby, cubbies := own, None, map[];
    }

    /** A report that does not list this sled leaves what it knows of its place. */
    method SetCubbies(report: Cubbies)
      modifies this
      ensures cubbies == report
      ensures Holds(report, own, ownCubby) || (Holds(report, own, None) && ownCubby == old(ownCubby))
    {
      var found: Option<Byte> := None;
      var c: nat := 0;
      while c < 256 && found.None?
        invariant 0 <= c <= 256
        invariant found.None? ==> forall d <- report :: d < c ==> report[d] != own
        invariant found.Some? ==> Holds(report, own, found)
      {
        if c in report && report[c] == own {
          found := Some(c);
        }
        c := c + 1;
      }
      if found.Some? {
        ownCubby := found;
      }
      cubbies := report;
    }

    /** Under any map without repeats from which this sled could have learned its
        place, the job runs here exactly when its mode fits its target and the
        target, read with that map, includes this sled. A refusal says whether the
        sled knew its place. */
    method Check(target: Target, interactive: bool) returns (reason: Option<SkipReason>)
      ensures reason == CheckTarget(own, ownCubby, target, interactive)
      ensures forall known :: Injective(known) && Holds(known, own, ownCubby) ==>
                (reason.None? <==> (target.IsSingle() || !interactive) && Includes(target, known, own))
      ensures reason.Some? ==> (reason.value.CubbyUnknown? <==> ownCubby.None?)
    {
      if (target.IsSingle() || !interactive) && Matches(target, own, ownCubby) {
        reason := None;
      } else if ownCubby.None? {
        reason := Some(CubbyUnknown);
      } else {
        reason := Some(NotTargeted);
      }
      forall known | Injective(known) && Holds(known, own, ownCubby)
        ensures Includes(target, known, own) <==> Matches(target, own, ownCubby)
      {
        IncludesIsMatches(target, known, own, ownCubby);
      }
    }
  }

  /** The target names the sled, as the accepting sled sees it. */
  predicate Includes(target: Target, cubbies: Cubbies, b: Baseboard) {
    target.All? || exists s <- target.sleds :: Names(s, cubbies, b)
  }

  lemma {:induction false} IncludesIsMatches(target: Target, cubbies: Cubbies, b: Baseboard, own: Option<Byte>)
    requires Injective(cubbies) && Holds(cubbies, b, own)
    ensures Includes(target, cubbies, b) <==> Matches(target, b, own)
  {
    if target.Sleds? {
      forall s | s in target.sleds
        ensures Names(s, cubbies, b) <==> (if s.Board? then s.baseboard == b else Some(s.cubby) == own)
      {
      }
    }
  }

  /** One resolution of a target agrees with every sled's own check: what it
      returns is exactly the reachable sleds that match, so a job whose mode fits
      its target runs on all of them and on no other reachable sled. */
  method ResolveAgrees(target: Target, interactive: bool, reachable: set<Baseboard>, cubbies: Cubbies,
                       places: map<Baseboard, Option<Byte>>)
    returns (r: Resolved)
    requires Injective(cubbies)
    requires forall b <- reachable :: b in places && Holds(cubbies, b, places[b])
    ensures r.Reached? ==> forall b :: b in r.sleds <==> b in reachable && Matches(target, b, places[b])
    ensures r.Reached? && (target.IsSingle() || !interactive) ==>
              forall b <- reachable :: b in r.sleds <==> CheckTarget(b, places[b], target, interactive).None?
    ensures r.UnknownCubby? ==> target.Sleds? && Cubby(r.cubby) in target.sleds && r.cubby !in cubbies
  {
    r := Resolve(target, reachable, cubbies);
    forall b | b in reachable
      ensures Includes(target, cubbies, b) <==> Matches(target, b, places[b])
    {
      IncludesIsMatches(target, cubbies, b, places[b]);
    }
    if target.Sleds? {
      UnknownIsListed(target.sleds, cubbies);
    }
  }

  lemma {:induction false} UnknownIsListed(sleds: seq<SledId>, cubbies: Cubbies)
    ensures var u := FirstUnknown(sleds, cubbies);
            u.Some? ==> Cubby(u.value) in sleds && u.value !in cubbies
  {
    if |sleds| > 0 {
      UnknownIsListed(sleds[1..], cubbies);
    }
  }

  /** Resolution and check agree on every target exactly when no sled is reported
      in two cubbies. */
  lemma {:induction false} AgreeIffInjective(cubbies: Cubbies)
    ensures Injective(cubbies) <==>
            forall target, b, own :: Holds(cubbies, b, own) ==>
              (Includes(target, cubbies, b) <==> Matches(target, b, own))
  {
    if Injective(cubbies) {
      forall target, b, own | Holds(cubbies, b, own)
        ensures Includes(target, cubbies, b) <==> Matches(target, b, own)
      {
        IncludesIsMatches(target, cubbies, b, own);
      }
    } else {
      var c, d :| c in cubbies && d in cubbies && cubbies[c] == cubbies[d] && c != d;
      var b := cubbies[c];
      var own := LeastCubby(cubbies, b, c);
      var other := if own == c then d else c;
      var target := Sleds([Cubby(other)]);
      assert Names(target.sleds[0], cubbies, b);
      assert Holds(cubbies, b, Some(own)) && Includes(target, cubbies, b) && !Matches(target, b, Some(own));
    }
  }

  lemma {:induction false} LeastCubby(cubbies: Cubbies, b: Baseboard, c: Byte) returns (least: Byte)
    requires c in cubbies && cubbies[c] == b
    ensures Holds(cubbies, b, Some(least))
    decreases c
  {
    if d: Byte :| d in cubbies && cubbies[d] == b && d < c {
      least := LeastCubby(cubbies, b, d);
    } else {
      least := c;
    }
  }
}
