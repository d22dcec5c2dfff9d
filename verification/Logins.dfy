/** The login tables of the proxy (proxy/src/login.rs): one of challenges not yet
answered and one of identities that answered theirs, both bounded. Nonces and signatures
are given by the events: a nonce is minted fresh, and a signature either
verifies or does not. Times are readings of one clock, in seconds. */
module Logins {
  import opened Lru
  import opened SequenceWindow

  type KeyId = nat
  type Nonce = nat
  type Time = nat

  const MAX_CACHED_IDENTITIES := 1_000
  const MAX_OUTSTANDING_NONCES := 10_000
  const NONCE_TTL := 60
  const IDENTITY_IDLE_TTL := 600
  const IDENTITY_MAX_TTL := 28_800

  datatype Cached = Cached(window: Window, authenticated: Time, lastUsed: Time)

  /** Time passed, never less than nothing. */
  function Elapsed(since: Time, now: Time): nat {
    if since <= now then now - since else 0
  }

  predicate IsStillValid(c: Cached, now: Time) {
    Elapsed(c.authenticated, now) < IDENTITY_MAX_TTL && Elapsed(c.lastUsed, now) < IDENTITY_IDLE_TTL
  }

  datatype LoginError =
    | MissingAuthorization | Malformed | BoundAtLogin | InitialOutsideLogin
    | NonceNotFound | NonceExpired | Unproved
    | NotLoggedIn | UnknownIdentity | IdentityExpired | InvalidSignature | SeqSpent

  datatype Result = Ok | Err(error: LoginError)

  type Nonces = Table<Nonce, Time>
  type Identities = Table<(KeyId, Nonce), Cached>

  /** Claiming takes the nonce out of the table whatever becomes of the login. */
  function Claim(nonces: Nonces, nonce: Nonce, now: Time): (Nonces, Result) {
    if nonce !in nonces.values then (nonces, Err(NonceNotFound))
    else
      (Pop(nonces, nonce),
       if Elapsed(nonces.values[nonce], now) >= NONCE_TTL then Err(NonceExpired) else Ok)
  }

  function Cache(identities: Identities, key: KeyId, nonce: Nonce, now: Time): Identities {
    Put(identities, (key, nonce), Cached(FRESH, now, now))
  }

  datatype Judgement = Refuse(error: LoginError) | Expire | Accept(cached: Cached)

  function Judge(cached: Cached, number: nat, signed: bool, now: Time): Judgement {
    if !IsStillValid(cached, now) then Expire
    else if !signed then Refuse(InvalidSignature)
    else
      var (window, ok) := Spend(cached.window, number);
      if ok then Accept(cached.(window := window, lastUsed := now)) else Refuse(SeqSpent)
  }

  /** Looking an identity up uses it, whatever the judgement. */
  function Settle(identities: Identities, id: (KeyId, Nonce), j: Judgement): (Identities, Result)
    requires id in identities.values
  {
    match j
    case Refuse(error) => (Touch(identities, id, identities.values[id]), Err(error))
    case Expire => (Pop(Touch(identities, id, identities.values[id]), id), Err(IdentityExpired))
    case Accept(cached) => (Touch(identities, id, cached), Ok)
  }

  function Verify(identities: Identities, key: KeyId, nonce: Nonce, number: nat, signed: bool, now: Time)
    : (Identities, Result)
  {
    var id := (key, nonce);
    if id !in identities.values then (identities, Err(UnknownIdentity))
    else Settle(identities, id, Judge(identities.values[id], number, signed, now))
  }

  // ---- The tables in place

  /** An `Authorization` header, parsed: credentials for a login, or for a request
      with the nonce and number its signature covers. */
  datatype Authn =
    | NoHeader
    | BadHeader
    | Initial(key: KeyId, nonce: Nonce)
    | Bound(key: KeyId, nonce: Nonce, number: nat)
    | Unsigned(key: KeyId)

  class LoginTables {
    var nonces: Nonces
    var identities: Identities

    constructor ()
      ensures nonces == Lru.Empty(MAX_OUTSTANDING_NONCES) && identities == Lru.Empty(MAX_CACHED_IDENTITIES)
    {
      nonces, identities := Lru.Empty(MAX_OUTSTANDING_NONCES), Lru.Empty(MAX_CACHED_IDENTITIES);
    }

    method ClaimNonce(nonce: Nonce, now: Time) returns (result: Result)
      modifies this`nonces
      ensures (nonces, result) == Claim(old(nonces), nonce, now)
      ensures result == (if nonce !in old(nonces).values then Err(NonceNotFound)
                         else if now < old(nonces).values[nonce] + NONCE_TTL then Ok else Err(NonceExpired))
      ensures nonces.values == old(nonces).values - {nonce}
    {
      if nonce !in nonces.values {
        return Err(NonceNotFound);
      }
      var minted := nonces.values[nonce];
      nonces := Pop(nonces, nonce);
      result := if Elapsed(minted, now) >= NONCE_TTL then Err(NonceExpired) else Ok;
    }

    /** `proved`: the key is the one named and its signature of the challenge
        verifies. The two tables are locked one after the other. */
    method VerifyLogin(authz: Authn, proved: bool, claimed: Time, cached: Time) returns (result: Result)
      modifies this
      ensures authz.NoHeader? ==> result == Err(MissingAuthorization)
      ensures authz.BadHeader? ==> result == Err(Malformed)
      ensures authz.Bound? || authz.Unsigned? ==> result == Err(BoundAtLogin)
      ensures !authz.Initial? ==> nonces == old(nonces)
      ensures result.Ok? <==>
                && authz.Initial? && proved && authz.nonce in old(nonces).values
                && claimed < old(nonces).values[authz.nonce] + NONCE_TTL
      ensures authz.Initial? ==>
                && nonces == Claim(old(nonces), authz.nonce, claimed).0
                && nonces.values == old(nonces).values - {authz.nonce}
                && (result == Err(NonceNotFound) <==> authz.nonce !in old(nonces).values)
                && (result == Err(NonceExpired) <==>
                      authz.nonce in old(nonces).values && old(nonces).values[authz.nonce] + NONCE_TTL <= claimed)
                && (result.Err? ==> result.error in {NonceNotFound, NonceExpired, Unproved})
      ensures identities == if result.Ok? then Cache(old(identities), authz.key, authz.nonce, cached)
                            else old(identities)
    {
      match authz {
        case NoHeader => return Err(MissingAuthorization);
        case BadHeader => return Err(Malformed);
        case Bound(_, _, _) => return Err(BoundAtLogin);
        case Unsigned(_) => return Err(BoundAtLogin);
        case Initial(key, nonce) =>
          result := ClaimNonce(nonce, claimed);
          if result.Ok? {
            if !proved {
              return Err(Unproved);
            }
            identities := Cache(identities, key, nonce, cached);
          }
      }
    }

    method VerifyRequest(authz: Authn, signed: bool, now: Time) returns (result: Result)
      modifies this`identities
      ensures authz.NoHeader? ==> result == Err(MissingAuthorization)
      ensures authz.BadHeader? ==> result == Err(Malformed)
      ensures authz.Initial? ==> result == Err(InitialOutsideLogin)
      ensures authz.Unsigned? ==> result == Err(NotLoggedIn)
      ensures !authz.Bound? ==> identities == old(identities)
      ensures authz.Bound? ==>
                (identities, result) == Verify(old(identities), authz.key, authz.nonce, authz.number, signed, now)
      ensures authz.Bound? ==>
                var id := (authz.key, authz.nonce);
                if id !in old(identities).values then result == Err(UnknownIdentity) && identities == old(identities)
                else
                  var cached := old(identities).values[id];
                  if cached.authenticated + IDENTITY_MAX_TTL <= now || cached.lastUsed + IDENTITY_IDLE_TTL <= now then
                    result == Err(IdentityExpired) && identities.values == old(identities).values - {id}
                  else if !signed then result == Err(InvalidSignature) && identities.values == old(identities).values
                  else
                    var (window, ok) := Spend(cached.window, authz.number);
                    if !ok then result == Err(SeqSpent) && identities.values == old(identities).values
                    else
                      && result == Ok
                      && identities.values == old(identities).values[id := Cached(window, cached.authenticated, now)]
    {
      match authz {
        case NoHeader => return Err(MissingAuthorization);
        case BadHeader => return Err(Malformed);
        case Initial(_, _) => return Err(InitialOutsideLogin);
        case Unsigned(_) => return Err(NotLoggedIn);
        case Bound(key, nonce, number) =>
          var id := (key, nonce);
          if id !in identities.values {
            return Err(UnknownIdentity);
          }
          var cached := identities.values[id];
          ghost var before := identities;
          identities := Touch(identities, id, cached);
          if !IsStillValid(cached, now) {
            identities := Pop(identities, id);
            return Err(IdentityExpired);
          }
          if !signed {
            return Err(InvalidSignature);
          }
          var (window, ok) := Spend(cached.window, number);
          if !ok {
            return Err(SeqSpent);
          }
          identities := identities.(values := identities.values[id := cached.(window := window, lastUsed := now)]);
          assert identities == Touch(before, id, cached.(window := window, lastUsed := now));
          result := Ok;
      }
    }

    /** A failure is answered with a new challenge. */
    method RefuseFailure(result: Result, nonce: Nonce, now: Time) returns (challenge: bool)
      modifies this`nonces
      ensures challenge == result.Err?
      ensures nonces == if challenge then Put(old(nonces), nonce, now) else old(nonces)
    {
      challenge := result.Err?;
      if challenge {
        nonces := Put(nonces, nonce, now);
      }
    }
  }

  // ---- Every run

  type Triple = (KeyId, Nonce, nat)

  /** The tables, the logins between their two locks, and what a run has done so
      far: nonces ever minted and ever claimed, logins and authorizations granted,
      and the signed numbers each identity has been shown. */
  datatype World = World(
    nonces: Nonces, identities: Identities, inflight: set<(KeyId, Nonce)>,
    minted: set<Nonce>, claimed: set<Nonce>, shown: map<(KeyId, Nonce), set<nat>>,
    logins: seq<(KeyId, Nonce)>, authorized: seq<Triple>)

  datatype Event =
    | Mint(nonce: Nonce, now: Time)
    | ClaimFor(key: KeyId, nonce: Nonce, proved: bool, now: Time)
    | CacheFor(key: KeyId, nonce: Nonce, now: Time)
    | Abandon(key: KeyId, nonce: Nonce)
    | Request(key: KeyId, nonce: Nonce, number: nat, signed: bool, now: Time)

  function Init(): World {
    World(Lru.Empty(MAX_OUTSTANDING_NONCES), Lru.Empty(MAX_CACHED_IDENTITIES), {}, {}, {}, map[], [], [])
  }

  /** Minted nonces are new; nothing else is asked of the world. */
  predicate Enabled(w: World, e: Event) {
    match e
    case Mint(nonce, _) => nonce !in w.minted
    case CacheFor(key, nonce, _) => (key, nonce) in w.inflight
    case _ => true
  }

  function AfterClaim(w: World, key: KeyId, nonce: Nonce, proved: bool, now: Time): World {
    var (nonces, result) := Claim(w.nonces, nonce, now);
    w.(nonces := nonces,
       claimed := if nonce in w.nonces.values then w.claimed + {nonce} else w.claimed,
       inflight := if result.Ok? && proved then w.inflight + {(key, nonce)} else w.inflight)
  }

  function Shown(w: World, id: (KeyId, Nonce)): set<nat> {
    if id in w.shown then w.shown[id] else {}
  }

  function AfterJudgement(w: World, id: (KeyId, Nonce), number: nat, j: Judgement): World
    requires id in w.identities.values
  {
    var v := w.(identities := Settle(w.identities, id, j).0);
    if j.Accept? then
      v.(shown := w.shown[id := Shown(w, id) + {number}], authorized := w.authorized + [(id.0, id.1, number)])
    else if j == Refuse(SeqSpent) then v.(shown := w.shown[id := Shown(w, id) + {number}])
    else v
  }

  function AfterRequest(w: World, key: KeyId, nonce: Nonce, number: nat, signed: bool, now: Time): World {
    var id := (key, nonce);
    if id !in w.identities.values then w
    else AfterJudgement(w, id, number, Judge(w.identities.values[id], number, signed, now))
  }

  function Next(w: World, e: Event): World {
    match e
    case Mint(nonce, now) => w.(nonces := Put(w.nonces, nonce, now), minted := w.minted + {nonce})
    case ClaimFor(key, nonce, proved, now) => AfterClaim(w, key, nonce, proved, now)
    case CacheFor(key, nonce, now) =>
      w.(identities := Cache(w.identities, key, nonce, now), inflight := w.inflight - {(key, nonce)},
         logins := w.logins + [(key, nonce)], shown := w.shown[(key, nonce) := {}])
    case Abandon(key, nonce) => w.(inflight := w.inflight - {(key, nonce)})
    case Request(key, nonce, number, signed, now) => AfterRequest(w, key, nonce, number, signed, now)
  }

  function After(es: seq<Event>): World {
    if |es| == 0 then Init() else Next(After(es[..|es| - 1]), es[|es| - 1])
  }

  predicate Follows(es: seq<Event>) {
    |es| == 0 || (Follows(es[..|es| - 1]) && Enabled(After(es[..|es| - 1]), es[|es| - 1]))
  }

  predicate Granted(w: World, nonce: Nonce) {
    exists i :: 0 <= i < |w.logins| && w.logins[i].1 == nonce
  }

  /** A nonce moves one way: minted, outstanding, claimed, in flight, logged in. */
  ghost predicate NoncesMoveOn(w: World) {
    && (forall n <- w.nonces.values :: n in w.minted && n !in w.claimed)
    && w.claimed <= w.minted
    && (forall f <- w.inflight :: f.1 in w.claimed && !Granted(w, f.1))
    && (forall f, g :: f in w.inflight && g in w.inflight && f.1 == g.1 ==> f == g)
    && (forall l <- w.logins :: l.1 in w.claimed)
    && (forall i, j :: 0 <= i < j < |w.logins| ==> w.logins[i].1 != w.logins[j].1)
  }

  predicate Seen(w: World, t: Triple) {
    (t.0, t.1) in w.shown && t.2 in w.shown[(t.0, t.1)]
  }

  ghost predicate Remembers(identities: Identities, shown: map<(KeyId, Nonce), set<nat>>) {
    forall id <- identities.values :: id in shown && Represents(identities.values[id].window, shown[id])
  }

  /** Every cached window stands for the numbers its identity was shown. */
  ghost predicate WindowsRemember(w: World) {
    && Remembers(w.identities, w.shown)
    && (forall id <- w.shown :: id in w.logins)
    && (forall t <- w.authorized :: Seen(w, t))
    && (forall i, j :: 0 <= i < j < |w.authorized| ==> w.authorized[i] != w.authorized[j])
  }

  ghost predicate Inv(w: World) {
    && Valid(w.nonces) && Valid(w.identities)
    && w.nonces.cap == MAX_OUTSTANDING_NONCES && w.identities.cap == MAX_CACHED_IDENTITIES
    && NoncesMoveOn(w) && WindowsRemember(w)
  }

  lemma {:induction false} MintKeeps(w: World, nonce: Nonce, now: Time)
    requires Inv(w) && nonce !in w.minted
    ensures Inv(Next(w, Mint(nonce, now)))
  {
    PutKeeps(w.nonces, nonce, now);
  }

  lemma {:induction false} ClaimKeeps(w: World, key: KeyId, nonce: Nonce, proved: bool, now: Time)
    requires Inv(w)
    ensures Inv(AfterClaim(w, key, nonce, proved, now))
  {
    PopKeeps(w.nonces, nonce);
  }

  lemma {:induction false} CacheKeeps(w: World, key: KeyId, nonce: Nonce, now: Time)
    requires Inv(w) && (key, nonce) in w.inflight
    ensures Inv(Next(w, CacheFor(key, nonce, now)))
  {
    PutKeeps(w.identities, (key, nonce), Cached(FRESH, now, now));
    assert (key, nonce) !in w.logins;
    FreshRepresents();
  }

  /** What a judgement leaves in the table of identities. */
  lemma {:induction false} SettleLeaves(identities: Identities, id: (KeyId, Nonce), j: Judgement)
    requires Valid(identities) && id in identities.values
    ensures var after := Settle(identities, id, j).0;
            && Valid(after) && after.cap == identities.cap
            && after.values == match j {
                                 case Refuse(_) => identities.values
                                 case Expire => identities.values - {id}
                                 case Accept(cached) => identities.values[id := cached]
                               }
  {
    var cached := identities.values[id];
    var used := Touch(identities, id, cached);
    assert used.values == identities.values;
    TouchKeeps(identities, id, cached);
    PopKeeps(used, id);
    if j.Accept? {
      TouchKeeps(identities, id, j.cached);
    }
  }

  /** A judgement in keeping with what an identity was shown: a number is accepted
      only if it was not shown before, and the window afterwards stands for what
      has been shown by then. */
  ghost predicate Sound(cached: Cached, shown: set<nat>, number: nat, j: Judgement) {
    && (j.Accept? ==> number !in shown && Represents(j.cached.window, shown + {number}))
    && (j == Refuse(SeqSpent) ==> Represents(cached.window, shown + {number}))
  }

  lemma {:induction false} JudgeIsSound(cached: Cached, shown: set<nat>, number: nat, signed: bool, now: Time)
    requires Represents(cached.window, shown)
    ensures Sound(cached, shown, number, Judge(cached, number, signed, now))
  {
    SpendRefines(cached.window, shown, number);
  }

  lemma {:induction false} SettledRemembers(w: World, id: (KeyId, Nonce), number: nat, j: Judgement)
    requires Valid(w.identities) && Remembers(w.identities, w.shown) && id in w.identities.values
    requires Sound(w.identities.values[id], w.shown[id], number, j)
    ensures var v := AfterJudgement(w, id, number, j); Remembers(v.identities, v.shown)
  {
    SettleLeaves(w.identities, id, j);
    var v := AfterJudgement(w, id, number, j);
    forall k | k in v.identities.values
      ensures k in v.shown && Represents(v.identities.values[k].window, v.shown[k])
    {
      assert k in w.identities.values;
    }
  }

  lemma {:induction false} LogGrows(w: World, id: (KeyId, Nonce), number: nat, j: Judgement)
    requires WindowsRemember(w) && id in w.identities.values
    requires j.Accept? ==> number !in w.shown[id]
    ensures var v := AfterJudgement(w, id, number, j);
            && (forall t <- v.authorized :: Seen(v, t))
            && (forall i, k :: 0 <= i < k < |v.authorized| ==> v.authorized[i] != v.authorized[k])
  {
    var v := AfterJudgement(w, id, number, j);
    assert forall t <- w.authorized :: Seen(w, t) && Seen(v, t);
    assert j.Accept? ==> !Seen(w, (id.0, id.1, number));
  }

  lemma {:induction false} RequestKeeps(w: World, key: KeyId, nonce: Nonce, number: nat, signed: bool, now: Time)
    requires Inv(w)
    ensures Inv(AfterRequest(w, key, nonce, number, signed, now))
  {
    var id := (key, nonce);
    if id in w.identities.values {
      var cached := w.identities.values[id];
      JudgeIsSound(cached, w.shown[id], number, signed, now);
      JudgementKeeps(w, id, number, Judge(cached, number, signed, now));
    }
  }

  lemma {:induction false} JudgementKeeps(w: World, id: (KeyId, Nonce), number: nat, j: Judgement)
    requires Inv(w) && id in w.identities.values && Sound(w.identities.values[id], w.shown[id], number, j)
    ensures Inv(AfterJudgement(w, id, number, j))
  {
    SettleLeaves(w.identities, id, j);
    SettledRemembers(w, id, number, j);
    LogGrows(w, id, number, j);
  }

  lemma {:induction false} RunKeeps(es: seq<Event>)
    requires Follows(es)
    ensures Inv(After(es))
  {
    if |es| > 0 {
      RunKeeps(es[..|es| - 1]);
      var w := After(es[..|es| - 1]);
      match es[|es| - 1] {
        case Mint(nonce, now) => MintKeeps(w, nonce, now);
        case ClaimFor(key, nonce, proved, now) => ClaimKeeps(w, key, nonce, proved, now);
        case CacheFor(key, nonce, now) => CacheKeeps(w, key, nonce, now);
        case Abandon(key, nonce) =>
        case Request(key, nonce, number, signed, now) => RequestKeeps(w, key, nonce, number, signed, now);
      }
    }
  }

  /** Over every run, with any expiry and any eviction: a nonce logs in at most
      once, a signed number is authorized at most once for its key and nonce and
      only after that login, and neither table outgrows its bound. */
  lemma {:induction false} AtMostOnce(es: seq<Event>)
    requires Follows(es)
    ensures var w := After(es);
            && (forall i, j :: 0 <= i < j < |w.logins| ==> w.logins[i].1 != w.logins[j].1)
            && (forall i, j :: 0 <= i < j < |w.authorized| ==> w.authorized[i] != w.authorized[j])
            && (forall t <- w.authorized :: (t.0, t.1) in w.logins)
            && |w.nonces.order| <= MAX_OUTSTANDING_NONCES && |w.identities.order| <= MAX_CACHED_IDENTITIES
  {
    RunKeeps(es);
  }

  /** A request is authorized, and logged as such, exactly when its identity is
      cached and unexpired, its signature verifies, and its number was never shown
      before and is less than 256 below every number that was. */
  lemma {:induction false} AuthorizedExactlyWhen(es: seq<Event>, key: KeyId, nonce: Nonce, number: nat, signed: bool, now: Time)
    requires Follows(es)
    ensures var w, id := After(es), (key, nonce);
            var (identities, result) := Verify(w.identities, key, nonce, number, signed, now);
            var v := AfterRequest(w, key, nonce, number, signed, now);
            && (result.Ok? <==>
                  && id in w.identities.values && IsStillValid(w.identities.values[id], now)
                  && signed && Acceptable(Shown(w, id), number))
            && v.identities == identities
            && v.authorized == w.authorized + if result.Ok? then [(key, nonce, number)] else []
  {
    RunKeeps(es);
    var w, id := After(es), (key, nonce);
    if id in w.identities.values {
      SpendRefines(w.identities.values[id].window, w.shown[id], number);
    }
  }
}
