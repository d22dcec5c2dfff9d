/** A bounded table that evicts its least recently used entry, as the login
tables of the proxy use it. */
module Lru {
  /** `order` lists the keys, most recently used first. */
  datatype Table<K(==), V> = Table(cap: nat, values: map<K, V>, order: seq<K>)

  function Empty<K(==), V>(cap: nat): Table<K, V> {
    Table(cap, map[], [])
  }

  ghost predicate Valid<K(!new), V>(t: Table<K, V>) {
    && |t.order| <= t.cap && t.cap > 0
    && (forall i, j :: 0 <= i < j < |t.order| ==> t.order[i] != t.order[j])
    && (forall k :: k in t.values <==> k in t.order)
  }

  function Without<K(==, !new)>(order: seq<K>, key: K): (r: seq<K>)
    ensures |r| <= |order|
    ensures forall k :: k in r ==> k in order
  {
    if order == [] then []
    else if order[0] == key then order[1..]
    else [order[0]] + Without(order[1..], key)
  }

  function Pop<K(==, !new), V>(t: Table<K, V>, key: K): Table<K, V> {
    Table(t.cap, t.values - {key}, Without(t.order, key))
  }

  /** Use an entry, leaving it with this value. */
  function Touch<K(==, !new), V>(t: Table<K, V>, key: K, value: V): Table<K, V> {
    Table(t.cap, t.values[key := value], [key] + Without(t.order, key))
  }

  /** Insert or replace an entry; a full table gives up its oldest one. */
  function Put<K(==, !new), V>(t: Table<K, V>, key: K, value: V): Table<K, V> {
    if key in t.values || |t.order| < t.cap || t.order == [] then Touch(t, key, value)
    else
      var last := |t.order| - 1;
      Touch(Table(t.cap, t.values - {t.order[last]}, t.order[..last]), key, value)
  }

  lemma {:induction false} WithoutRemoves<K(!new)>(order: seq<K>, key: K)
    requires forall i, j :: 0 <= i < j < |order| ==> order[i] != order[j]
    ensures forall k :: k in Without(order, key) <==> k in order && k != key
    ensures forall i, j :: 0 <= i < j < |Without(order, key)| ==> Without(order, key)[i] != Without(order, key)[j]
    ensures |Without(order, key)| == |order| - if key in order then 1 else 0
  {
    if order != [] {
      assert order == [order[0]] + order[1..];
      if order[0] == key {
        assert key !in order[1..];
      } else {
        WithoutRemoves(order[1..], key);
        var rest := Without(order[1..], key);
        assert order[0] !in order[1..];
        assert order[0] !in rest;
      }
    }
  }

  lemma {:induction false} PopKeeps<K(!new), V>(t: Table<K, V>, key: K)
    requires Valid(t)
    ensures Valid(Pop(t, key))
  {
    WithoutRemoves(t.order, key);
  }

  lemma {:induction false} TouchKeeps<K(!new), V>(t: Table<K, V>, key: K, value: V)
    requires Valid(t) && (key in t.values || |t.order| < t.cap)
    ensures Valid(Touch(t, key, value))
  {
    WithoutRemoves(t.order, key);
    var rest := Without(t.order, key);
    assert key !in rest;
  }

  /** The table never outgrows its bound, and a full one loses only the entry
      used least recently. */
  lemma {:induction false} PutKeeps<K(!new), V>(t: Table<K, V>, key: K, value: V)
    requires Valid(t)
    ensures Valid(Put(t, key, value)) && key in Put(t, key, value).values
    ensures forall k :: k in t.values && k !in Put(t, key, value).values ==>
              t.order != [] && k == t.order[|t.order| - 1] && |t.order| == t.cap && key !in t.values
  {
    if key in t.values || |t.order| < t.cap {
      TouchKeeps(t, key, value);
    } else {
      var last := |t.order| - 1;
      var kept := Table(t.cap, t.values - {t.order[last]}, t.order[..last]);
      assert t.order == t.order[..last] + [t.order[last]];
      assert Valid(kept);
      TouchKeeps(kept, key, value);
    }
  }

  // ---- Over a history of uses

  datatype Op<K, V> = Insert(key: K, value: V) | Use(key: K, value: V) | Remove(key: K)

  function Apply<K(==, !new), V>(t: Table<K, V>, op: Op<K, V>): Table<K, V> {
    match op
    case Insert(key, value) => Put(t, key, value)
    case Use(key, value) => if key in t.values then Touch(t, key, value) else t
    case Remove(key) => Pop(t, key)
  }

  function After<K(==, !new), V>(cap: nat, ops: seq<Op<K, V>>): Table<K, V> {
    if |ops| == 0 then Empty(cap) else Apply(After(cap, ops[..|ops| - 1]), ops[|ops| - 1])
  }

  /** When each key was last put in or used. */
  function LastUses<K(==, !new), V>(cap: nat, ops: seq<Op<K, V>>): map<K, nat> {
    if |ops| == 0 then map[]
    else
      var before, op := ops[..|ops| - 1], ops[|ops| - 1];
      var uses := LastUses(cap, before);
      if op.Insert? || (op.Use? && op.key in After(cap, before).values) then uses[op.key := |before|] else uses
  }

  /** More recently used keys come first. */
  ghost predicate ByRecency<K>(order: seq<K>, uses: map<K, nat>) {
    && (forall i :: 0 <= i < |order| ==> order[i] in uses)
    && forall i, j :: 0 <= i < j < |order| ==> uses[order[i]] > uses[order[j]]
  }

  lemma {:induction false} WithoutByRecency<K(!new)>(order: seq<K>, key: K, uses: map<K, nat>)
    requires ByRecency(order, uses)
    ensures ByRecency(Without(order, key), uses)
  {
    if order != [] && order[0] != key {
      var rest := Without(order[1..], key);
      WithoutByRecency(order[1..], key, uses);
      forall i | 0 <= i < |rest|
        ensures uses[order[0]] > uses[rest[i]]
      {
        assert rest[i] in rest && rest[i] in order[1..];
      }
    }
  }

  lemma {:induction false} TouchByRecency<K(!new), V>(t: Table<K, V>, key: K, value: V, uses: map<K, nat>, now: nat)
    requires ByRecency(t.order, uses) && Valid(t)
    requires forall k <- uses :: uses[k] < now
    ensures ByRecency(Touch(t, key, value).order, uses[key := now])
  {
    WithoutByRecency(t.order, key, uses);
    WithoutRemoves(t.order, key);
    var rest := Without(t.order, key);
    assert forall i :: 0 <= i < |rest| ==> rest[i] in rest && rest[i] != key;
  }

  lemma {:induction false} PutByRecency<K(!new), V>(t: Table<K, V>, key: K, value: V, uses: map<K, nat>, now: nat)
    requires ByRecency(t.order, uses) && Valid(t)
    requires forall k <- uses :: uses[k] < now
    ensures ByRecency(Put(t, key, value).order, uses[key := now])
  {
    if key in t.values || |t.order| < t.cap {
      TouchByRecency(t, key, value, uses, now);
    } else {
      var last := |t.order| - 1;
      var kept := Table(t.cap, t.values - {t.order[last]}, t.order[..last]);
      assert t.order == t.order[..last] + [t.order[last]];
      assert Valid(kept);
      TouchByRecency(kept, key, value, uses, now);
    }
  }

  /** After any history the order is that of recency, so what a full table gives up is
      the entry used longest ago. */
  lemma {:induction false} OrderIsRecency<K(!new), V>(cap: nat, ops: seq<Op<K, V>>)
    requires cap > 0
    ensures Valid(After(cap, ops)) && ByRecency(After(cap, ops).order, LastUses(cap, ops))
    ensures forall k <- LastUses(cap, ops) :: LastUses(cap, ops)[k] < |ops|
  {
    if |ops| > 0 {
      var before, op := ops[..|ops| - 1], ops[|ops| - 1];
      OrderIsRecency(cap, before);
      var t, uses := After(cap, before), LastUses(cap, before);
      match op {
        case Insert(key, value) =>
          PutKeeps(t, key, value);
          PutByRecency(t, key, value, uses, |before|);
        case Use(key, value) =>
          if key in t.values {
            TouchKeeps(t, key, value);
            TouchByRecency(t, key, value, uses, |before|);
          }
        case Remove(key) =>
          PopKeeps(t, key);
          WithoutByRecency(t.order, key, uses);
      }
    }
  }

  lemma {:induction false} EvictsUsedLongestAgo<K(!new), V>(cap: nat, ops: seq<Op<K, V>>, key: K, value: V, gone: K, kept: K)
    requires cap > 0
    requires gone in After(cap, ops).values && gone !in Put(After(cap, ops), key, value).values
    requires kept in After(cap, ops).values && kept != gone
    ensures var uses := LastUses(cap, ops);
      gone in uses && kept in uses && uses[gone] < uses[kept] && kept in Put(After(cap, ops), key, value).values
  {
    OrderIsRecency(cap, ops);
    var t := After(cap, ops);
    PutKeeps(t, key, value);
    var i :| 0 <= i < |t.order| && t.order[i] == kept;
  }
}
