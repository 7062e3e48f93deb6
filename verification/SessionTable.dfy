/** The `sessions` table and the statements the session repository runs on it. */
module SessionTable {
  import opened Common

  type Token = string

  datatype Status = Active | Revoked

  /** What the two lookups return: a row without its refresh token. */
  datatype Session = Session(id: int, userId: int, appId: int, refreshExpiresAt: int, status: Status)

  datatype Row = Row(userId: int, appId: int, token: Token, refreshExpiresAt: int, status: Status, updatedAt: int)

  type Table = map<int, Row>

  function Read(t: Table, id: int): Session
    requires id in t
  {
    Session(id, t[id].userId, t[id].appId, t[id].refreshExpiresAt, t[id].status)
  }

  /** Refresh tokens are 32 random bytes; no two rows carry the same one. */
  ghost predicate TokensUnique(t: Table) {
    forall a, b :: a in t && b in t && t[a].token == t[b].token ==> a == b
  }

  /** The row a lookup by refresh token finds. */
  ghost function Holder(t: Table, token: Token): (r: Option<int>)
    ensures r.Some? ==> r.value in t && t[r.value].token == token
    ensures r.None? ==> forall id :: id in t ==> t[id].token != token
  {
    if exists id :: id in t && t[id].token == token
    then var id :| id in t && t[id].token == token; Some(id)
    else None
  }

  /** The rows an `UPDATE ... WHERE refresh_token = token AND status = 'active'` touches. */
  function Flips(t: Table, token: Token): set<int> {
    set id | id in t && t[id].token == token && t[id].status.Active?
  }

  function Revoke(t: Table, token: Token, now: int): (r: Table)
    ensures r.Keys == t.Keys
    ensures forall id :: id in t && r[id] != t[id] ==> t[id].token == token && t[id].status.Active?
    ensures forall id :: id in t && t[id].token == token ==> r[id].status.Revoked?
    ensures forall id :: id in t && t[id].token == token && t[id].status.Active? ==> r[id].updatedAt == now
    ensures forall id :: id in t ==>
      r[id].userId == t[id].userId && r[id].appId == t[id].appId && r[id].token == t[id].token
      && r[id].refreshExpiresAt == t[id].refreshExpiresAt
  {
    map id | id in t :: if id in Flips(t, token) then t[id].(status := Revoked, updatedAt := now) else t[id]
  }

  lemma RevokeOne(t: Table, token: Token, now: int, id: int)
    requires TokensUnique(t) && id in t && t[id].token == token && t[id].status.Active?
    ensures Revoke(t, token, now) == t[id := t[id].(status := Revoked, updatedAt := now)]
  {
    forall i | i in Flips(t, token) ensures i == id {}
    assert id in Flips(t, token);
  }

  class SessionRepository {
    var rows: Table
    var nextId: int

    ghost predicate Valid()
      reads this
    {
      TokensUnique(rows) && forall id :: id in rows ==> id < nextId
    }

    constructor ()
      ensures Valid() && rows == map[] && nextId == 1
    {
      rows, nextId := map[], 1;
    }

    method SessionByID(id: int, fault: Fault) returns (r: Result<Session>)
      ensures r == if fault != Fine then Err(Unavailable) else if id in rows then Ok(Read(rows, id)) else Err(NotFound)
    {
      if fault != Fine {
        return Err(Unavailable);
      }
      if id !in rows {
        return Err(NotFound);
      }
      return Ok(Read(rows, id));
    }

    method SessionByRefreshToken(token: Token, fault: Fault) returns (r: Result<Session>)
      requires Valid()
      ensures fault != Fine ==> r == Err(Unavailable)
      ensures fault == Fine ==>
        r == match Holder(rows, token) case None => Err(NotFound) case Some(id) => Ok(Read(rows, id))
    {
      if fault != Fine {
        return Err(Unavailable);
      }
      if id :| id in rows && rows[id].token == token {
        return Ok(Read(rows, id));
      }
      return Err(NotFound);
    }

    /** `gap` is how many values the id sequence skipped since the last row. No rule of the table forbids a
        token that a row holds already; tokens stay unique because the drawn ones are new. */
    method CreateSession(userId: int, appId: int, token: Token, expiry: int, now: int, gap: nat, fault: Fault)
      returns (r: Result<int>)
      requires Valid()
      modifies this
      ensures (forall id :: id in old(rows) ==> old(rows)[id].token != token) ==> Valid()
      ensures forall id :: id in rows ==> id < nextId
      ensures fault == Lost ==> r == Err(Unavailable) && rows == old(rows) && nextId == old(nextId)
      ensures fault != Lost ==>
        var id := old(nextId) + gap;
        && id !in old(rows)
        && rows == old(rows)[id := Row(userId, appId, token, expiry, Active, now)]
        && nextId == id + 1
        && r == if fault == Fine then Ok(id) else Err(Unavailable)
    {
      if fault == Lost {
        return Err(Unavailable);
      }
      var id := nextId + gap;
      rows := rows[id := Row(userId, appId, token, expiry, Active, now)];
      nextId := id + 1;
      r := if fault == Fine then Ok(id) else Err(Unavailable);
    }

    method RevokeByRefreshToken(token: Token, now: int, fault: Fault) returns (r: Result<bool>)
      requires Valid()
      modifies this
      ensures Valid() && nextId == old(nextId)
      ensures rows == if fault == Lost then old(rows) else Revoke(old(rows), token, now)
      ensures r == if fault == Fine then Ok(Flips(old(rows), token) != {}) else Err(Unavailable)
    {
      if fault == Lost {
        return Err(Unavailable);
      }
      var flipped := Flips(rows, token);
      rows := Revoke(rows, token, now);
      if fault == Late {
        return Err(Unavailable);
      }
      return Ok(|flipped| > 0);
    }
  }
}
