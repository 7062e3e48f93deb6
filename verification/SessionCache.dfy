/** The session cache: one expiring entry per session id. Times and durations are in nanoseconds. */
module SessionCache {
  import opened Common
  import opened SessionTable

  const MINUTE := 60_000_000_000
  const DAY := 86_400_000_000_000

  datatype Entry = Entry(session: Session, deadline: int)

  type Cache = map<int, Entry>

  predicate Visible(c: Cache, id: int, now: int) {
    id in c && now < c[id].deadline
  }

  /** How long an entry lives. It is never longer than a day, and it never outlives the refresh
      token, unless that has already expired; then it is a minute. */
  function Ttl(expiry: int, now: int): (ttl: int)
    ensures 0 < ttl <= DAY == 86_400_000_000_000
    ensures now < expiry ==> now + ttl <= expiry
    ensures now < expiry && ttl != DAY ==> now + ttl == expiry
    ensures expiry <= now ==> ttl == MINUTE == 60_000_000_000
  {
    if expiry <= now then MINUTE else if expiry - now > DAY then DAY else expiry - now
  }

  class CacheStore {
    var entries: Cache

    constructor ()
      ensures entries == map[]
    {
      entries := map[];
    }

    /** The two clock readings of a write: the TTL is computed at `now`, the entry is stored at
        `storedAt`. */
    method SetSession(id: int, value: Session, now: int, storedAt: int, fault: Fault) returns (ok: bool)
      modifies this
      ensures ok == (fault == Fine)
      ensures entries == if fault == Lost then old(entries)
                         else old(entries)[id := Entry(value, storedAt + Ttl(value.refreshExpiresAt, now))]
    {
      var ttl := value.refreshExpiresAt - now;
      if ttl <= 0 {
        ttl := MINUTE;
      }
      if ttl > DAY {
        ttl := DAY;
      }
      if fault != Lost {
        entries := entries[id := Entry(value, storedAt + ttl)];
      }
      ok := fault == Fine;
    }

    method GetSession(id: int, now: int, fault: Fault) returns (r: Result<Option<Session>>)
      ensures r == if fault != Fine then Err(Unavailable)
                   else if Visible(entries, id, now) then Ok(Some(entries[id].session)) else Ok(None)
    {
      if fault != Fine {
        return Err(Unavailable);
      }
      if Visible(entries, id, now) {
        return Ok(Some(entries[id].session));
      }
      return Ok(None);
    }

    method DelSession(id: int, fault: Fault) returns (ok: bool)
      modifies this
      ensures ok == (fault == Fine)
      ensures entries == if fault == Lost then old(entries) else old(entries) - {id}
    {
      if fault != Lost {
        entries := entries - {id};
      }
      ok := fault == Fine;
    }
  }
}
