/** The lifetimes of challenges and identities over every run of the proxy's login
tables (proxy/src/login.rs): times are those of the events of the run, not those
the tables keep. */
module LoginTimes {
  import opened Lru
  import opened SequenceWindow
  import opened Logins
  import opened Wrappers

  type Id = (KeyId, Nonce)

  // ---- Challenges

  ghost predicate MintedAt(es: seq<Event>, nonce: Nonce, time: Time) {
    exists i :: 0 <= i < |es| && es[i] == Mint(nonce, time)
  }

  ghost predicate ClaimedAt(es: seq<Event>, id: Id, time: Time) {
    exists i :: 0 <= i < |es| && es[i] == ClaimFor(id.0, id.1, true, time)
  }

  /** The nonce was minted, and claimed with a proof before it was `NONCE_TTL` old. */
  ghost predicate InTime(es: seq<Event>, id: Id) {
    exists minted: Time, claimed: Time ::
      MintedAt(es, id.1, minted) && ClaimedAt(es, id, claimed) && claimed < minted + NONCE_TTL
  }

  ghost predicate Timely(es: seq<Event>, w: World) {
    && (forall n <- w.nonces.values :: MintedAt(es, n, w.nonces.values[n]))
    && (forall f <- w.inflight :: InTime(es, f))
    && (forall l <- w.logins :: InTime(es, l))
  }

  lemma {:induction false} TimeStands(es: seq<Event>)
    requires |es| > 0
    ensures forall n: Nonce, t: Time :: MintedAt(es[..|es| - 1], n, t) ==> MintedAt(es, n, t)
    ensures forall id: Id :: InTime(es[..|es| - 1], id) ==> InTime(es, id)
  {
    var before := es[..|es| - 1];
    assert forall i :: 0 <= i < |before| ==> before[i] == es[i];
    forall n: Nonce, t: Time | MintedAt(before, n, t)
      ensures MintedAt(es, n, t)
    {
      var i :| 0 <= i < |before| && before[i] == Mint(n, t);
      assert es[i] == Mint(n, t);
    }
    forall id: Id | InTime(before, id)
      ensures InTime(es, id)
    {
      var minted: Time, claimed: Time :|
        MintedAt(before, id.1, minted) && ClaimedAt(before, id, claimed) && claimed < minted + NONCE_TTL;
      var i :| 0 <= i < |before| && before[i] == ClaimFor(id.0, id.1, true, claimed);
      assert es[i] == ClaimFor(id.0, id.1, true, claimed);
      assert ClaimedAt(es, id, claimed);
    }
  }

  lemma {:induction false} ClaimIsTimely(es: seq<Event>, w: World, id: Id, proved: bool, now: Time)
    requires Timely(es, w) && (proved ==> ClaimedAt(es, id, now))
    ensures Timely(es, AfterClaim(w, id.0, id.1, proved, now))
  {
    if id.1 in w.nonces.values && proved && now < w.nonces.values[id.1] + NONCE_TTL {
      assert MintedAt(es, id.1, w.nonces.values[id.1]);
      assert InTime(es, id);
    }
  }

  lemma {:induction false} RequestIsTimely(es: seq<Event>, w: World, e: Event)
    requires Timely(es, w) && e.Request?
    ensures Timely(es, Logins.Next(w, e))
  {
    var v := Logins.Next(w, e);
    assert v.nonces == w.nonces && v.inflight == w.inflight && v.logins == w.logins;
  }

  lemma {:induction false} StepIsTimely(es: seq<Event>, w: World, e: Event)
    requires Timely(es, w) && |es| > 0 && es[|es| - 1] == e && Logins.Enabled(w, e)
    ensures Timely(es, Logins.Next(w, e))
  {
    match e {
      case Mint(nonce, now) => assert MintedAt(es, nonce, now);
      case ClaimFor(key, nonce, proved, now) =>
        assert proved ==> ClaimedAt(es, (key, nonce), now);
        ClaimIsTimely(es, w, (key, nonce), proved, now);
      case Request(_, _, _, _, _) => RequestIsTimely(es, w, e);
      case _ =>
    }
  }

  /** Over every run, each login was for a nonce claimed within its lifetime. */
  lemma {:induction false} LoginsAreTimely(es: seq<Event>)
    requires Logins.Follows(es)
    ensures Timely(es, Logins.After(es))
  {
    if |es| > 0 {
      var before := es[..|es| - 1];
      LoginsAreTimely(before);
      TimeStands(es);
      StepIsTimely(es, Logins.After(before), es[|es| - 1]);
    }
  }

  // ---- Identities

  /** When an identity last logged in. */
  function LoginTime(es: seq<Event>, id: Id): Option<Time> {
    if |es| == 0 then None
    else
      var e := es[|es| - 1];
      if e.CacheFor? && (e.key, e.nonce) == id then Some(e.now) else LoginTime(es[..|es| - 1], id)
  }

  predicate Authorizes(w: World, e: Event) {
    e.Request? && Logins.Next(w, e).authorized != w.authorized
  }

  /** When it last logged in or had a request authorized. */
  function LastUse(es: seq<Event>, id: Id): Option<Time> {
    if |es| == 0 then None
    else
      var before, e := es[..|es| - 1], es[|es| - 1];
      if (e.CacheFor? || Authorizes(Logins.After(before), e)) && (e.key, e.nonce) == id then Some(e.now)
      else LastUse(before, id)
  }

  ghost predicate Clocked(es: seq<Event>, values: map<Id, Cached>) {
    forall id <- values ::
      LoginTime(es, id) == Some(values[id].authenticated) && LastUse(es, id) == Some(values[id].lastUsed)
  }

  lemma {:induction false} RequestClocks(es: seq<Event>)
    requires |es| > 0 && es[|es| - 1].Request?
    requires var w := Logins.After(es[..|es| - 1]); Valid(w.identities) && Clocked(es[..|es| - 1], w.identities.values)
    ensures Clocked(es, Logins.After(es).identities.values)
  {
    var before, e := es[..|es| - 1], es[|es| - 1];
    var w, id := Logins.After(before), (e.key, e.nonce);
    if id in w.identities.values {
      var j := Judge(w.identities.values[id], e.number, e.signed, e.now);
      SettleLeaves(w.identities, id, j);
      assert Authorizes(w, e) <==> j.Accept?;
    }
  }

  lemma {:induction false} CacheClocks(es: seq<Event>)
    requires |es| > 0 && es[|es| - 1].CacheFor?
    requires Clocked(es[..|es| - 1], Logins.After(es[..|es| - 1]).identities.values)
    ensures Clocked(es, Logins.After(es).identities.values)
  {
  }

  /** Over every run, a cached identity keeps the times of its login and of its last
      use. */
  lemma {:induction false} TablesKeepTime(es: seq<Event>)
    requires Logins.Follows(es)
    ensures Clocked(es, Logins.After(es).identities.values)
  {
    if |es| > 0 {
      var k := |es| - 1;
      TablesKeepTime(es[..k]);
      RunKeeps(es[..k]);
      match es[k] {
        case Request(_, _, _, _, _) => RequestClocks(es);
        case CacheFor(_, _, _) => CacheClocks(es);
        case _ =>
      }
    }
  }

  /** After any run, a request is authorized exactly when its identity is still cached,
      logged in less than eight hours ago and was used less than ten minutes ago, its
      signature verifies, and its number is new and inside the window. */
  lemma {:induction false} AuthorizedInTime(es: seq<Event>, key: KeyId, nonce: Nonce, number: nat, signed: bool, now: Time)
    requires Logins.Follows(es)
    ensures var w, id := Logins.After(es), (key, nonce);
      Verify(w.identities, key, nonce, number, signed, now).1.Ok? <==>
        && id in w.identities.values && LoginTime(es, id).Some? && LastUse(es, id).Some?
        && now < LoginTime(es, id).value + 28_800 && now < LastUse(es, id).value + 600
        && signed && Acceptable(Shown(w, id), number)
  {
    TablesKeepTime(es);
    AuthorizedExactlyWhen(es, key, nonce, number, signed, now);
  }
}
