/**
 * One-time credentials with two set-once marks.
 *
 * Three tables share this life cycle: password-reset tokens and email-verification
 * tokens (owned by a user) and pending registrations (owned by a normalized email).
 * A row is open while neither mark is set; `usedAt` says it was consumed,
 * `invalidatedAt` that it was retired unused.
 */
module Generations {
  import opened Kernel

  datatype Generation<O, P> = Generation(
    owner: O, payload: P, tokenHash: Hash, expiresAt: Time,
    usedAt: Option<Time>, invalidatedAt: Option<Time>)
  {
    predicate Open() {
      usedAt.None? && invalidatedAt.None?
    }
  }

  /** A row as it is inserted: both marks null. */
  function NewRow<O, P>(owner: O, payload: P, tokenHash: Hash, expiresAt: Time): Generation<O, P> {
    Generation(owner, payload, tokenHash, expiresAt, None, None)
  }

  function OpenIds<O(==), P>(t: map<Id, Generation<O, P>>, owner: O): set<Id> {
    set id | id in t && t[id].owner == owner && t[id].Open()
  }

  predicate HashFree<O, P>(t: map<Id, Generation<O, P>>, hash: Hash) {
    forall id :: id in t ==> t[id].tokenHash != hash
  }

  /** The unique index on `token_hash`. */
  ghost predicate UniqueHashes<O, P>(t: map<Id, Generation<O, P>>) {
    forall a, b :: a in t && b in t && t[a].tokenHash == t[b].tokenHash ==> a == b
  }

  /** The two marks have distinct meanings and are never both set. */
  ghost predicate OneMark<O, P>(t: map<Id, Generation<O, P>>) {
    forall id :: id in t ==> t[id].usedAt.None? || t[id].invalidatedAt.None?
  }

  ghost predicate AtMostOneOpen<O, P>(t: map<Id, Generation<O, P>>) {
    forall a, b :: a in t && b in t && t[a].Open() && t[b].Open() && t[a].owner == t[b].owner ==> a == b
  }

  /** Set `invalidated_at` on the listed rows. */
  function Retire<O, P>(t: map<Id, Generation<O, P>>, ids: set<Id>, now: Time): map<Id, Generation<O, P>> {
    map id | id in t :: if id in ids then t[id].(invalidatedAt := Some(now)) else t[id]
  }

  /** Retire every open row of the owner, then insert the replacement. None: the insert violated a key. */
  function Issue<O(==), P>(t: map<Id, Generation<O, P>>, id: Id, row: Generation<O, P>, now: Time)
    : Option<map<Id, Generation<O, P>>>
  {
    if id in t || !HashFree(t, row.tokenHash) then None
    else Some(Retire(t, OpenIds(t, row.owner), now)[id := row])
  }

  /** Consume one row and retire its open siblings. */
  function Settle<O(==), P>(t: map<Id, Generation<O, P>>, id: Id, now: Time): map<Id, Generation<O, P>>
    requires id in t
  {
    Retire(t[id := t[id].(usedAt := Some(now))], OpenIds(t, t[id].owner) - {id}, now)
  }

  datatype Lookup = NotFound | AlreadyUsed | Expired | Usable(id: Id)

  /** The row a presented hash selects. */
  ghost function Find<O, P>(t: map<Id, Generation<O, P>>, hash: Hash): Option<Id> {
    if exists id :: id in t && t[id].tokenHash == hash
    then var id :| id in t && t[id].tokenHash == hash; Some(id)
    else None
  }

  /** How a completion classifies a presented hash, in the order the code checks. */
  ghost function Classify<O, P>(t: map<Id, Generation<O, P>>, hash: Hash, now: Time): Lookup {
    match Find(t, hash)
    case None => NotFound
    case Some(id) =>
      if t[id].usedAt.Some? || t[id].invalidatedAt.Some? then AlreadyUsed
      else if t[id].expiresAt <= now then Expired
      else Usable(id)
  }

  /** With unique hashes a lookup finds a row exactly when it is the row carrying the hash. */
  lemma FindIsTheRow<O, P>(t: map<Id, Generation<O, P>>, hash: Hash, id: Id)
    requires UniqueHashes(t)
    ensures Find(t, hash) == Some(id) <==> id in t && t[id].tokenHash == hash
  {
    if id in t && t[id].tokenHash == hash {
      assert exists x :: x in t && t[x].tokenHash == hash;
    }
  }

  /**
   * A successful issue leaves the new row as its owner's only open one, touches no other
   * owner, rewrites nothing but `invalidated_at` on rows that were open, and keeps every
   * table constraint.
   */
  lemma IssueLeavesOneOpen<O, P>(t: map<Id, Generation<O, P>>, id: Id, row: Generation<O, P>, now: Time)
    requires row.Open()
    requires Issue(t, id, row, now).Some?
    ensures var u := Issue(t, id, row, now).value;
            && u.Keys == t.Keys + {id}
            && OpenIds(u, row.owner) == {id}
            && (forall o :: o != row.owner ==> OpenIds(u, o) == OpenIds(t, o))
            && (forall x :: x in t ==> u[x] == t[x] || (t[x].Open() && u[x] == t[x].(invalidatedAt := Some(now))))
            && (UniqueHashes(t) ==> UniqueHashes(u))
            && (OneMark(t) ==> OneMark(u))
            && (AtMostOneOpen(t) ==> AtMostOneOpen(u))
  {
    var u := Issue(t, id, row, now).value;
    assert forall x :: x in u && u[x].Open() && u[x].owner == row.owner ==> x == id;
    forall o | o != row.owner ensures OpenIds(u, o) == OpenIds(t, o) {
      assert forall x :: x in OpenIds(u, o) <==> x in OpenIds(t, o);
    }
  }

  /**
   * Settling an open row consumes exactly it, closes every other generation of the same owner
   * without marking any of them used, and leaves other owners' rows unchanged.
   */
  lemma SettleClosesOwner<O, P>(t: map<Id, Generation<O, P>>, id: Id, now: Time)
    requires id in t && t[id].Open()
    ensures var u := Settle(t, id, now);
            && u.Keys == t.Keys
            && u[id] == t[id].(usedAt := Some(now))
            && OpenIds(u, t[id].owner) == {}
            && (forall x :: x in t && x != id && t[x].owner == t[id].owner && t[x].Open() ==>
                  u[x] == t[x].(invalidatedAt := Some(now)))
            && (forall x :: x in t && x != id && !(t[x].owner == t[id].owner && t[x].Open()) ==> u[x] == t[x])
            && (UniqueHashes(t) ==> UniqueHashes(u))
            && (OneMark(t) ==> OneMark(u))
            && (AtMostOneOpen(t) ==> AtMostOneOpen(u))
  {
    var u := Settle(t, id, now);
    forall x | x in u ensures !(u[x].owner == t[id].owner && u[x].Open()) {
      if x != id && t[x].owner == t[id].owner && t[x].Open() {
        assert x in OpenIds(t, t[id].owner) - {id};
      }
    }
  }
}
