/** The session protocol as a state machine. Every step of a call is one access to the table, the
    cache, the clock or the random source; steps of different calls interleave freely. */
module AuthMachine {
  import opened Common
  import opened SessionTable
  import opened SessionCache

  /** The claims an access token carries. */
  datatype Access = Access(userId: int, sessionId: int, appId: int, expiresAt: int)

  datatype TokenPair = TokenPair(access: Access, refresh: Token, refreshExpiresAt: int)

  /** Where `ValidateSession` found the session it judged. `readAt` is when that copy was read from
      the table, `writtenAt` when it was put in the cache, `gotAt` when it was taken out. */
  datatype Source =
    | FromTable(readAt: int)
    | FromCache(readAt: int, writtenAt: int, gotAt: int)

  datatype Outcome =
    | Issued(pair: TokenPair)
    | LoggedOut(ok: bool)
    | Answer(active: bool, id: int, source: Source, at: int)
    | Failed(error: Error)

  datatype Request =
    | LoginReq(userId: int, appId: int)
    | RefreshReq(token: Token)
    | LogoutReq(token: Token)
    | ValidateReq(id: int)
  {
    function Bearer(): Token {
      match this
      case RefreshReq(t) => t
      case LogoutReq(t) => t
      case _ => ""
    }

    function Subject(): int {
      match this
      case ValidateReq(id) => id
      case _ => 0
    }
  }

  /** Program counter of a call, with the locals that are live there. */
  datatype Pc =
    | MakeToken(userId: int, appId: int, from: Option<int>)
    | MakeExpiry(userId: int, appId: int, from: Option<int>, token: Token)
    | Insert(userId: int, appId: int, from: Option<int>, token: Token, expiry: int)
    | MakeAccess(userId: int, appId: int, id: int, token: Token, expiry: int)
    | RefreshLookup
    | RefreshCheck(session: Session)
    | RefreshRevoke(session: Session)
    | RefreshEvict(session: Session)
    | LogoutLookup
    | LogoutEvict(session: Session)
    | LogoutRevoke(session: Session)
    | CacheRead
    | TableRead
    | CacheTtl(session: Session, readAt: int)
    | CacheWrite(session: Session, readAt: int, ttl: int)
    | Check(session: Session, source: Source)
    | Done(outcome: Outcome)

  datatype Call = Call(req: Request, startedAt: int, pc: Pc)

  /** When a cached copy was read from the table, and when it was written to the cache. */
  datatype Stamp = Stamp(readAt: int, writtenAt: int)

  /** What the calls share. The fields after `drawn` are history only: no step reads them. `origin`
      maps a rotated session to the one it replaced, `creator` a row to the call that inserted it,
      `flipper` a revoked row to the call whose update revoked it. */
  datatype State = State(
    now: int, table: Table, nextId: int, cache: Cache, drawn: set<Token>,
    stamps: map<int, Stamp>, origin: map<int, int>, creator: map<int, int>, flipper: map<int, int>)
  {
    predicate Made(id: int, c: int) {
      id in creator && creator[id] == c
    }

    function From(id: int): Option<int> {
      if id in origin then Some(origin[id]) else None
    }
  }

  /** How long the two tokens live. */
  datatype Config = Config(refreshTtl: int, accessTtl: int)

  datatype World = World(cfg: Config, st: State, calls: map<int, Call>)

  /** What the environment decides at one access: how long since the last one, whether it fails,
      and the value drawn from the random source or skipped in the id sequence, if it uses one. */
  datatype Choice = Choice(dt: nat, fault: Fault, token: Token, gap: nat)

  datatype Step =
    | Tick(dt: nat)
    | Expel(id: int)
    | Start(c: int, req: Request)
    | Go(c: int, choice: Choice)

  function Init(cfg: Config): World {
    World(cfg, State(0, map[], 1, map[], {}, map[], map[], map[], map[]), map[])
  }

  function Entrypoint(req: Request): Pc {
    match req
    case LoginReq(u, a) => MakeToken(u, a, None)
    case RefreshReq(_) => RefreshLookup
    case LogoutReq(_) => LogoutLookup
    case ValidateReq(_) => CacheRead
  }

  /** What one access does to the shared state. */
  datatype Effect =
    | Nothing
    | Draw(token: Token)
    | InsertRow(id: int, row: Row, from: Option<int>)
    | RevokeToken(token: Token)
    | Evict(id: int)
    | Store(id: int, session: Session, ttl: int, readAt: int)

  datatype Move = Move(effect: Effect, pc: Pc)

  /** A lost access has no effect. */
  function Unless(fault: Fault, e: Effect): Effect {
    if fault == Lost then Nothing else e
  }

  ghost function Lookup(t: Table, token: Token, fault: Fault): Result<Session> {
    if fault != Fine then Err(Unavailable)
    else match Holder(t, token) case None => Err(NotFound) case Some(id) => Ok(Read(t, id))
  }

  function Cached(st: State, id: int): Source {
    if id in st.stamps then FromCache(st.stamps[id].readAt, st.stamps[id].writtenAt, st.now)
    else FromCache(st.now, st.now, st.now)
  }

  /** The access call `call` makes next, and where it goes from there. */
  ghost function Decide(cfg: Config, st: State, call: Call, ch: Choice): Move {
    match call.pc
    case MakeToken(u, a, from) =>
      if ch.fault != Fine then Move(Nothing, Done(Failed(Unavailable)))
      else Move(Draw(ch.token), MakeExpiry(u, a, from, ch.token))
    case MakeExpiry(u, a, from, token) =>
      Move(Nothing, Insert(u, a, from, token, st.now + cfg.refreshTtl))
    case Insert(u, a, from, token, expiry) =>
      var id := st.nextId + ch.gap;
      Move(Unless(ch.fault, InsertRow(id, Row(u, a, token, expiry, Active, st.now), from)),
           if ch.fault == Fine then MakeAccess(u, a, id, token, expiry) else Done(Failed(Unavailable)))
    case MakeAccess(u, a, id, token, expiry) =>
      Move(Nothing, Done(if ch.fault != Fine then Failed(Unavailable)
                         else Issued(TokenPair(Access(u, id, a, st.now + cfg.accessTtl), token, expiry))))
    case RefreshLookup =>
      Move(Nothing, match Lookup(st.table, call.req.Bearer(), ch.fault)
                    case Err(e) => Done(Failed(e))
                    case Ok(s) => RefreshCheck(s))
    case RefreshCheck(s) =>
      Move(Nothing, if s.status != Active || st.now > s.refreshExpiresAt then Done(Failed(InvalidRefreshToken))
                    else RefreshRevoke(s))
    case RefreshRevoke(s) =>
      Move(Unless(ch.fault, RevokeToken(call.req.Bearer())), RefreshEvict(s))
    case RefreshEvict(s) =>
      Move(Unless(ch.fault, Evict(s.id)), MakeToken(s.userId, s.appId, Some(s.id)))
    case LogoutLookup =>
      Move(Nothing, match Lookup(st.table, call.req.Bearer(), ch.fault)
                    case Err(e) => Done(if e == NotFound then Failed(NotFound) else LoggedOut(false))
                    case Ok(s) => LogoutEvict(s))
    case LogoutEvict(s) =>
      Move(Unless(ch.fault, Evict(s.id)), LogoutRevoke(s))
    case LogoutRevoke(s) =>
      Move(Unless(ch.fault, RevokeToken(call.req.Bearer())),
           Done(if ch.fault == Fine then LoggedOut(Flips(st.table, call.req.Bearer()) != {}) else Failed(Unavailable)))
    case CacheRead =>
      var id := call.req.Subject();
      Move(Nothing, if ch.fault == Fine && Visible(st.cache, id, st.now) then Check(st.cache[id].session, Cached(st, id))
                    else TableRead)
    case TableRead =>
      var id := call.req.Subject();
      Move(Nothing, if ch.fault != Fine then Done(Failed(Unavailable))
                    else if id !in st.table then Done(Failed(NotFound))
                    else CacheTtl(Read(st.table, id), st.now))
    case CacheTtl(s, readAt) =>
      Move(Nothing, CacheWrite(s, readAt, Ttl(s.refreshExpiresAt, st.now)))
    case CacheWrite(s, readAt, ttl) =>
      Move(Unless(ch.fault, Store(call.req.Subject(), s, ttl, readAt)), Check(s, FromTable(readAt)))
    case Check(s, source) =>
      Move(Nothing, Done(Answer(s.status == Active && st.now < s.refreshExpiresAt, call.req.Subject(), source, st.now)))
    case Done(_) =>
      Move(Nothing, call.pc)
  }

  function Apply(st: State, c: int, e: Effect): State {
    match e
    case Nothing => st
    case Draw(token) => st.(drawn := st.drawn + {token})
    case InsertRow(id, row, from) =>
      st.(table := st.table[id := row], nextId := id + 1, creator := st.creator[id := c],
         origin := if from.Some? then st.origin[id := from.value] else st.origin)
    case RevokeToken(token) =>
      st.(table := Revoke(st.table, token, st.now),
         flipper := st.flipper + map id | id in Flips(st.table, token) :: c)
    case Evict(id) =>
      st.(cache := st.cache - {id}, stamps := st.stamps - {id})
    case Store(id, session, ttl, readAt) =>
      st.(cache := st.cache[id := Entry(session, st.now + ttl)], stamps := st.stamps[id := Stamp(readAt, st.now)])
  }

  /** One access by call `c`, at the time `w.st.now`. */
  ghost function Act(w: World, c: int, ch: Choice): World
    requires c in w.calls
  {
    var move := Decide(w.cfg, w.st, w.calls[c], ch);
    World(w.cfg, Apply(w.st, c, move.effect), w.calls[c := w.calls[c].(pc := move.pc)])
  }

  /** The random source never repeats a value. */
  predicate Repeats(st: State, pc: Pc, ch: Choice) {
    pc.MakeToken? && ch.fault == Fine && ch.token in st.drawn
  }

  function Elapse(w: World, dt: nat): World {
    w.(st := w.st.(now := w.st.now + dt))
  }

  function Begin(w: World, c: int, req: Request): World {
    w.(calls := w.calls[c := Call(req, w.st.now, Entrypoint(req))])
  }

  predicate Enabled(w: World, s: Step) {
    s.Go? ==> s.c in w.calls && !w.calls[s.c].pc.Done? && !Repeats(w.st, w.calls[s.c].pc, s.choice)
  }

  /** One step of the machine. A step that is not possible in `w` leaves `w` as it is. */
  ghost function Next(w: World, s: Step): World {
    match s
    case Tick(dt) => Elapse(w, dt)
    case Expel(id) => w.(st := Apply(w.st, 0, Evict(id)))
    case Start(c, req) => if c in w.calls then w else Begin(w, c, req)
    case Go(c, ch) => if Enabled(w, s) then Act(Elapse(w, ch.dt), c, ch) else w
  }

  ghost function Run(w: World, steps: seq<Step>): World
    decreases |steps|, 1
  {
    if steps == [] then w else RunOn(w, steps)
  }

  ghost function RunOn(w: World, steps: seq<Step>): World
    requires steps != []
    decreases |steps|, 0
  {
    Next(Run(w, steps[..|steps| - 1]), steps[|steps| - 1])
  }

  lemma RunLast(w: World, steps: seq<Step>)
    requires steps != []
    ensures Run(w, steps) == Next(Run(w, steps[..|steps| - 1]), steps[|steps| - 1])
  {
    assert Run(w, steps) == RunOn(w, steps);
  }
}
