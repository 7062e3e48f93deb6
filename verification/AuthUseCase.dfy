/** The use case itself: methods over the repositories, each proved to carry out the machine's call. */
module AuthUseCase {
  import opened Common
  import opened SessionTable
  import opened SessionCache
  import opened AuthMachine
  import opened AuthTable
  import opened AuthCalls
  import opened AuthAtomic
  import Validity = AuthValidity

  class Clock {
    var now: int

    constructor ()
      ensures now == 0
    {
      now := 0;
    }

    method Advance(dt: nat)
      modifies this
      ensures now == old(now) + dt
    {
      now := now + dt;
    }
  }

  datatype User = User(id: int, passHash: string)

  class UserRepository {
    var byEmail: map<string, User>

    constructor (users: map<string, User>)
      ensures byEmail == users
    {
      byEmail := users;
    }

    method UserByEmail(email: string, fault: Fault) returns (r: Result<User>)
      ensures r == if fault != Fine then Err(Unavailable)
                   else if email in byEmail then Ok(byEmail[email]) else Err(NotFound)
    {
      if fault != Fine {
        return Err(Unavailable);
      }
      if email !in byEmail {
        return Err(NotFound);
      }
      return Ok(byEmail[email]);
    }
  }

  /** What a caller sees of an outcome. */
  function Reported(o: Outcome): Result<bool> {
    match o
    case LoggedOut(ok) => Ok(ok)
    case Answer(active, _, _, _) => Ok(active)
    case Issued(_) => Ok(true)
    case Failed(e) => Err(e)
  }

  function Handed(o: Outcome): Result<TokenPair> {
    match o
    case Issued(pair) => Ok(pair)
    case Failed(e) => Err(e)
    case _ => Err(Unavailable)
  }

  predicate IsSessionActive(s: Session, now: int) {
    s.status == Active && now < s.refreshExpiresAt
  }

  ghost predicate Linked(trail: seq<World>, c: int, env: Env, k: nat)
    requires k + 1 < |trail|
  {
    trail[k + 1] == Next(trail[k], Go(c, env(k)))
  }

  /** The worlds call `c` has gone through so far, one access after the other. */
  ghost predicate Witnessed(w0: World, c: int, req: Request, env: Env, trail: seq<World>) {
    && |trail| > 0 && trail[0] == Begin(w0, c, req)
    && forall k: nat {:trigger Linked(trail, c, env, k)} :: k + 1 < |trail| ==> Linked(trail, c, env, k)
  }

  lemma WitnessBegin(w0: World, c: int, req: Request, env: Env)
    requires Reachable(w0) && c !in w0.calls
    ensures Witnessed(w0, c, req, env, [Begin(w0, c, req)]) && Reachable(Begin(w0, c, req))
  {
    ReachableNext(w0, Start(c, req));
  }

  lemma WitnessNext(w0: World, c: int, req: Request, env: Env, trail: seq<World>, w: World)
    requires Witnessed(w0, c, req, env, trail) && w == Next(trail[|trail| - 1], Go(c, env(|trail| - 1)))
    requires Reachable(trail[|trail| - 1])
    ensures Witnessed(w0, c, req, env, trail + [w]) && Reachable(w)
  {
    ReachableNext(trail[|trail| - 1], Go(c, env(|trail| - 1)));
    var longer := trail + [w];
    forall k: nat | k + 1 < |longer|
      ensures Linked(longer, c, env, k)
    {
      if k + 1 < |trail| { assert Linked(trail, c, env, k); }
    }
  }

  lemma {:induction false} WitnessProgress(w0: World, c: int, req: Request, env: Env, trail: seq<World>, k: nat)
    requires Witnessed(w0, c, req, env, trail) && k < |trail|
    ensures trail[k] == Progress(w0, c, req, env, k)
  {
    if k > 0 {
      WitnessProgress(w0, c, req, env, trail, k - 1);
      ProgressNext(w0, c, req, env, k);
      assert Linked(trail, c, env, k - 1);
    }
  }

  lemma WitnessDone(w0: World, c: int, req: Request, env: Env, trail: seq<World>)
    requires Witnessed(w0, c, req, env, trail) && |trail| <= LONGEST + 1
    requires var w := trail[|trail| - 1]; c in w.calls && w.calls[c].pc.Done?
    ensures trail[|trail| - 1] == Completed(w0, c, req, env)
  {
    WitnessProgress(w0, c, req, env, trail, |trail| - 1);
    DoneStays(w0, c, req, env, |trail| - 1, LONGEST);
  }

  /** What revoking a token does to the row that holds it. */
  lemma RevokeHolder(t: Table, token: Token, now: int, id: int)
    requires TokensUnique(t) && id in t && t[id].token == token
    ensures Flips(t, token) != {} <==> t[id].status.Active?
    ensures Revoke(t, token, now) == if t[id].status.Revoked? then t
                                     else t[id := t[id].(status := Revoked, updatedAt := now)]
  {
    if t[id].status.Active? {
      assert id in Flips(t, token);
      RevokeOne(t, token, now, id);
    } else {
      assert forall i :: i in Flips(t, token) ==> i == id;
      assert Flips(t, token) == {};
    }
  }

  /** A session about to be judged is a copy of its row, which may have been revoked since. */
  lemma CheckedIs(w: World, c: int, id: int, session: Session, source: Source)
    requires Reachable(w) && c in w.calls && w.calls[c].req == ValidateReq(id) && w.calls[c].pc == Check(session, source)
    ensures id in w.st.table && session.refreshExpiresAt == w.st.table[id].refreshExpiresAt
    ensures session.status.Revoked? ==> w.st.table[id].status.Revoked?
  {
    var steps :| w == Run(Init(w.cfg), steps);
    Validity.RunKeeps(Init(w.cfg), steps);
    assert Validity.CallInv(w.st, w.calls[c]);
  }

  class AuthUseCase {
    const users: UserRepository
    const sessions: SessionRepository
    const cache: CacheStore
    const clock: Clock
    const cfg: Config
    const matches: (string, string) -> bool

    /** The machine's world this object stands for, and the worlds of the call it is carrying out. */
    ghost var world: World
    ghost var trail: seq<World>

    ghost predicate Valid()
      reads this, sessions, cache, clock
    {
      && sessions.Valid() && Reachable(world)
      && world.cfg == cfg
      && world.st.now == clock.now
      && world.st.table == sessions.rows && world.st.nextId == sessions.nextId
      && world.st.cache == cache.entries
    }

    /** Call `c`, begun in `w0`, has made `k` accesses and is at `pc`. */
    ghost predicate At(w0: World, c: int, req: Request, env: Env, k: nat, pc: Pc)
      reads this, sessions, cache, clock
    {
      && Valid()
      && |trail| == k + 1 && trail[k] == world && Witnessed(w0, c, req, env, trail)
      && c in world.calls && world.calls[c].req == req && world.calls[c].pc == pc
    }

    constructor (users: UserRepository, cfg: Config, matches: (string, string) -> bool)
      ensures Valid() && world == Init(cfg)
      ensures this.cfg == cfg && this.users == users && this.matches == matches
    {
      this.users := users;
      this.cfg := cfg;
      this.matches := matches;
      sessions := new SessionRepository();
      cache := new CacheStore();
      clock := new Clock();
      world := Init(cfg);
      trail := [];
      new;
      assert world == Run(Init(cfg), []);
    }

    ghost method BeginCall(c: int, req: Request, env: Env)
      requires Valid() && c !in world.calls
      modifies this`world, this`trail
      ensures At(old(world), c, req, env, 0, Entrypoint(req))
    {
      WitnessBegin(world, c, req, env);
      world := Begin(world, c, req);
      trail := [world];
    }

    ghost method Go(c: int, ch: Choice)
      requires c in world.calls
      modifies this`world, this`trail
      ensures world == Next(old(world), Step.Go(c, ch)) && trail == old(trail) + [world]
    {
      world := Next(world, Step.Go(c, ch));
      trail := trail + [world];
    }

    /** The session lookup that logout and rotation begin with. */
    method FindByToken(ghost w0: World, ghost c: int, ghost req: Request, token: Token, env: Env)
      returns (found: Result<Session>)
      requires req == RefreshReq(token) || req == LogoutReq(token)
      requires At(w0, c, req, env, 0, Entrypoint(req))
      modifies this`world, this`trail, clock
      ensures At(w0, c, req, env, 1, AfterLookup(req, found)) && clock.now == old(clock.now) + env(0).dt
      ensures found == if env(0).fault != Fine then Err(Unavailable)
                       else match Holder(sessions.rows, token)
                            case None => Err(NotFound)
                            case Some(id) => Ok(Read(sessions.rows, id))
    {
      clock.Advance(env(0).dt);
      found := sessions.SessionByRefreshToken(token, env(0).fault);
      WitnessNext(w0, c, req, env, trail, Next(world, Step.Go(c, env(0))));
      Go(c, env(0));
    }

    method Delete(ghost w0: World, ghost c: int, ghost req: Request, session: Session, env: Env, k: nat, ghost pc: Pc)
      requires pc == LogoutEvict(session) || pc == RefreshEvict(session)
      requires At(w0, c, req, env, k, pc)
      modifies this`world, this`trail, cache, clock
      ensures At(w0, c, req, env, k + 1, if pc.LogoutEvict? then LogoutRevoke(session)
                                         else MakeToken(session.userId, session.appId, Some(session.id)))
      ensures cache.entries == if env(k).fault == Lost then old(cache.entries) else old(cache.entries) - {session.id}
    {
      clock.Advance(env(k).dt);
      var deleted := cache.DelSession(session.id, env(k).fault);
      WitnessNext(w0, c, req, env, trail, Next(world, Step.Go(c, env(k))));
      Go(c, env(k));
    }

    method Revoke(ghost w0: World, ghost c: int, ghost req: Request, ghost session: Session, token: Token,
                  env: Env, k: nat, ghost pc: Pc)
      returns (r: Result<bool>)
      requires req.Bearer() == token && (pc == LogoutRevoke(session) || pc == RefreshRevoke(session))
      requires At(w0, c, req, env, k, pc)
      modifies this`world, this`trail, sessions, clock
      ensures At(w0, c, req, env, k + 1, if pc.RefreshRevoke? then RefreshEvict(session)
                                         else Done(match r case Ok(ok) => LoggedOut(ok) case Err(e) => Failed(e)))
      ensures r == if env(k).fault == Fine then Ok(Flips(old(sessions.rows), token) != {}) else Err(Unavailable)
      ensures sessions.rows == if env(k).fault == Lost then old(sessions.rows)
                               else SessionTable.Revoke(old(sessions.rows), token, clock.now)
    {
      RevokeMove(world, c, env(k));
      clock.Advance(env(k).dt);
      r := sessions.RevokeByRefreshToken(token, clock.now, env(k).fault);
      WitnessNext(w0, c, req, env, trail, Next(world, Step.Go(c, env(k))));
      Go(c, env(k));
    }

    /** A step that only reads the clock. */
    method ReadClock(ghost w0: World, ghost c: int, ghost req: Request, env: Env, k: nat, ghost pc: Pc)
      returns (now: int)
      requires pc.RefreshCheck? || pc.MakeExpiry? || pc.CacheTtl? || pc.Check?
      requires At(w0, c, req, env, k, pc)
      modifies this`world, this`trail, clock
      ensures now == clock.now == old(clock.now) + env(k).dt
      ensures At(w0, c, req, env, k + 1, AtTime(cfg, req, pc, now))
    {
      clock.Advance(env(k).dt);
      now := clock.now;
      WitnessNext(w0, c, req, env, trail, Next(world, Step.Go(c, env(k))));
      Go(c, env(k));
    }

    method DrawToken(ghost w0: World, ghost c: int, ghost req: Request, env: Env, k: nat,
                     ghost userId: int, ghost appId: int, ghost from: Option<int>)
      returns (r: Result<Token>)
      requires At(w0, c, req, env, k, MakeToken(userId, appId, from)) && env(k).token !in world.st.drawn
      modifies this`world, this`trail, clock
      ensures At(w0, c, req, env, k + 1,
                 match r case Ok(token) => MakeExpiry(userId, appId, from, token) case Err(e) => Done(Failed(e)))
      ensures clock.now == old(clock.now) + env(k).dt
      ensures r == if env(k).fault == Fine then Ok(env(k).token) else Err(Unavailable)
    {
      DrawMove(world, c, env(k));
      clock.Advance(env(k).dt);
      r := if env(k).fault == Fine then Ok(env(k).token) else Err(Unavailable);
      WitnessNext(w0, c, req, env, trail, Next(world, Step.Go(c, env(k))));
      Go(c, env(k));
    }

    method Create(ghost w0: World, ghost c: int, ghost req: Request, env: Env, k: nat,
                  userId: int, appId: int, ghost from: Option<int>, token: Token, expiry: int)
      returns (r: Result<int>)
      requires At(w0, c, req, env, k, Insert(userId, appId, from, token, expiry))
      modifies this`world, this`trail, sessions, clock
      ensures At(w0, c, req, env, k + 1,
                 match r case Ok(id) => MakeAccess(userId, appId, id, token, expiry) case Err(e) => Done(Failed(e)))
      ensures if env(k).fault == Fine
              then r.Ok? && r.value !in old(sessions.rows)
                   && sessions.rows == old(sessions.rows)[r.value := Row(userId, appId, token, expiry, Active, clock.now)]
              else r == Err(Unavailable)
    {
      PendingIsFresh(world, c, token);
      clock.Advance(env(k).dt);
      r := sessions.CreateSession(userId, appId, token, expiry, clock.now, env(k).gap, env(k).fault);
      WitnessNext(w0, c, req, env, trail, Next(world, Step.Go(c, env(k))));
      Go(c, env(k));
    }

    method SignAccess(ghost w0: World, ghost c: int, ghost req: Request, env: Env, k: nat,
                      userId: int, appId: int, id: int, ghost token: Token, ghost expiry: int)
      returns (r: Result<Access>)
      requires At(w0, c, req, env, k, MakeAccess(userId, appId, id, token, expiry))
      modifies this`world, this`trail, clock
      ensures At(w0, c, req, env, k + 1,
                 Done(match r case Ok(access) => Issued(TokenPair(access, token, expiry)) case Err(e) => Failed(e)))
      ensures r == if env(k).fault == Fine then Ok(Access(userId, id, appId, clock.now + cfg.accessTtl))
                   else Err(Unavailable)
    {
      clock.Advance(env(k).dt);
      r := if env(k).fault == Fine then Ok(Access(userId, id, appId, clock.now + cfg.accessTtl)) else Err(Unavailable);
      WitnessNext(w0, c, req, env, trail, Next(world, Step.Go(c, env(k))));
      Go(c, env(k));
    }

    /** Creates a session and the pair of tokens for it. */
    method Issue(ghost w0: World, ghost c: int, ghost req: Request, env: Env, k: nat,
                 userId: int, appId: int, ghost from: Option<int>)
      returns (r: Result<TokenPair>)
      requires At(w0, c, req, env, k, MakeToken(userId, appId, from)) && k + 4 <= LONGEST
      requires env(k).token !in world.st.drawn
      modifies this`world, this`trail, sessions, clock
      ensures Valid() && world == Completed(w0, c, req, env)
      ensures c in world.calls && world.calls[c].pc.Done? && r == Handed(world.calls[c].pc.outcome)
      ensures r.Ok? <==> env(k).fault == Fine && env(k + 2).fault == Fine && env(k + 3).fault == Fine
      ensures r.Err? ==> r.error == Unavailable
      ensures r.Ok? ==>
                var (access, id) := (r.value.access, r.value.access.sessionId);
                && access == Access(userId, id, appId, clock.now + cfg.accessTtl)
                && r.value.refresh == env(k).token
                && r.value.refreshExpiresAt == old(clock.now) + env(k).dt + env(k + 1).dt + cfg.refreshTtl
                && id !in old(sessions.rows) && id in sessions.rows
                && sessions.rows == old(sessions.rows)[id := Row(userId, appId, env(k).token, r.value.refreshExpiresAt,
                                                                 Active, sessions.rows[id].updatedAt)]
    {
      var drawn := DrawToken(w0, c, req, env, k, userId, appId, from);
      if drawn.Err? {
        WitnessDone(w0, c, req, env, trail);
        return Err(drawn.error);
      }
      r := Enter(w0, c, req, env, k + 1, userId, appId, from, drawn.value);
    }

    /** Stores the session with its new token and signs the access token. */
    method Enter(ghost w0: World, ghost c: int, ghost req: Request, env: Env, k: nat,
                 userId: int, appId: int, ghost from: Option<int>, token: Token)
      returns (r: Result<TokenPair>)
      requires At(w0, c, req, env, k, MakeExpiry(userId, appId, from, token)) && k + 3 <= LONGEST
      modifies this`world, this`trail, sessions, clock
      ensures Valid() && world == Completed(w0, c, req, env)
      ensures c in world.calls && world.calls[c].pc.Done? && r == Handed(world.calls[c].pc.outcome)
      ensures r.Ok? <==> env(k + 1).fault == Fine && env(k + 2).fault == Fine
      ensures r.Err? ==> r.error == Unavailable
      ensures r.Ok? ==>
                var (access, id) := (r.value.access, r.value.access.sessionId);
                && access == Access(userId, id, appId, clock.now + cfg.accessTtl)
                && r.value.refresh == token && r.value.refreshExpiresAt == old(clock.now) + env(k).dt + cfg.refreshTtl
                && id !in old(sessions.rows) && id in sessions.rows
                && sessions.rows == old(sessions.rows)[id := Row(userId, appId, token, r.value.refreshExpiresAt,
                                                                 Active, sessions.rows[id].updatedAt)]
    {
      var now := ReadClock(w0, c, req, env, k, MakeExpiry(userId, appId, from, token));
      var expiry := now + cfg.refreshTtl;
      var created := Create(w0, c, req, env, k + 1, userId, appId, from, token, expiry);
      if created.Err? {
        WitnessDone(w0, c, req, env, trail);
        return Err(created.error);
      }
      var signed := SignAccess(w0, c, req, env, k + 2, userId, appId, created.value, token, expiry);
      WitnessDone(w0, c, req, env, trail);
      if signed.Err? {
        return Err(signed.error);
      }
      return Ok(TokenPair(signed.value, token, expiry));
    }

    method Login(ghost c: int, email: string, password: string, appId: int, lookup: Fault, env: Env)
      returns (r: Result<TokenPair>)
      requires Valid() && c !in world.calls && Novel(world, env)
      modifies this`world, this`trail, sessions, clock
      ensures Valid()
      ensures lookup != Fine ==> world == old(world) && r == Err(Unavailable)
      ensures lookup == Fine && !(email in users.byEmail && matches(users.byEmail[email].passHash, password)) ==>
                world == old(world) && r == Err(InvalidCredentials)
      ensures lookup == Fine && email in users.byEmail && matches(users.byEmail[email].passHash, password) ==>
                && world == Completed(old(world), c, LoginReq(users.byEmail[email].id, appId), env)
                && c in world.calls && world.calls[c].pc.Done? && r == Handed(world.calls[c].pc.outcome)
                && (r.Ok? <==> env(0).fault == Fine && env(2).fault == Fine && env(3).fault == Fine)
                && (r.Err? ==> r.error == Unavailable)
      ensures r.Ok? ==>
                var (access, id) := (r.value.access, r.value.access.sessionId);
                && email in users.byEmail && access == Access(users.byEmail[email].id, id, appId, clock.now + cfg.accessTtl)
                && r.value.refreshExpiresAt == old(clock.now) + env(0).dt + env(1).dt + cfg.refreshTtl
                && id !in old(sessions.rows) && id in sessions.rows
                && sessions.rows == old(sessions.rows)[id := Row(access.userId, appId, r.value.refresh,
                                                                 r.value.refreshExpiresAt, Active,
                                                                 sessions.rows[id].updatedAt)]
    {
      var user := users.UserByEmail(email, lookup);
      if user.Err? {
        if user.error == NotFound {
          return Err(InvalidCredentials);
        }
        return Err(user.error);
      }
      if !matches(user.value.passHash, password) {
        return Err(InvalidCredentials);
      }
      BeginCall(c, LoginReq(user.value.id, appId), env);
      r := Issue(old(world), c, LoginReq(user.value.id, appId), env, 0, user.value.id, appId, None);
    }

    method Logout(ghost c: int, token: Token, env: Env) returns (r: Result<bool>)
      requires Valid() && c !in world.calls
      modifies this`world, this`trail, sessions, cache, clock
      ensures Valid() && world == Completed(old(world), c, LogoutReq(token), env)
      ensures c in world.calls && world.calls[c].pc.Done? && r == Reported(world.calls[c].pc.outcome)
      ensures env(0).fault != Fine ==>
                r == Ok(false) && sessions.rows == old(sessions.rows) && cache.entries == old(cache.entries)
      ensures env(0).fault == Fine ==>
                match Holder(old(sessions.rows), token)
                case None =>
                  r == Err(NotFound) && sessions.rows == old(sessions.rows) && cache.entries == old(cache.entries)
                case Some(id) =>
                  var row := old(sessions.rows)[id];
                  && r == (if env(2).fault == Fine then Ok(row.status.Active?) else Err(Unavailable))
                  && sessions.rows == (if env(2).fault == Lost || row.status.Revoked? then old(sessions.rows)
                                       else old(sessions.rows)[id := row.(status := Revoked, updatedAt := clock.now)])
                  && cache.entries == (if env(1).fault == Lost then old(cache.entries) else old(cache.entries) - {id})
    {
      ghost var w0, req := world, LogoutReq(token);
      BeginCall(c, req, env);
      var found := FindByToken(w0, c, req, token, env);
      if found.Err? {
        WitnessDone(w0, c, req, env, trail);
        if found.error != NotFound {
          return Ok(false);
        }
        return Err(found.error);
      }
      r := EndSession(w0, c, req, found.value, token, env);
    }

    /** Logout of a session that was found: out of the cache, then revoked. */
    method EndSession(ghost w0: World, ghost c: int, ghost req: Request, session: Session, token: Token, env: Env)
      returns (r: Result<bool>)
      requires req == LogoutReq(token) && At(w0, c, req, env, 1, LogoutEvict(session))
      requires session.id in sessions.rows && sessions.rows[session.id].token == token
      modifies this`world, this`trail, sessions, cache, clock
      ensures Valid() && world == Completed(w0, c, req, env)
      ensures c in world.calls && world.calls[c].pc.Done? && r == Reported(world.calls[c].pc.outcome)
      ensures var (id, row) := (session.id, old(sessions.rows)[session.id]);
              && r == (if env(2).fault == Fine then Ok(row.status.Active?) else Err(Unavailable))
              && sessions.rows == (if env(2).fault == Lost || row.status.Revoked? then old(sessions.rows)
                                   else old(sessions.rows)[id := row.(status := Revoked, updatedAt := clock.now)])
              && cache.entries == (if env(1).fault == Lost then old(cache.entries) else old(cache.entries) - {id})
    {
      Delete(w0, c, req, session, env, 1, LogoutEvict(session));
      r := Revoke(w0, c, req, session, token, env, 2, LogoutRevoke(session));
      RevokeHolder(old(sessions.rows), token, clock.now, session.id);
      WitnessDone(w0, c, req, env, trail);
    }

    method RefreshToken(ghost c: int, token: Token, env: Env) returns (r: Result<TokenPair>)
      requires Valid() && c !in world.calls && Novel(world, env)
      modifies this`world, this`trail, sessions, cache, clock
      ensures Valid() && world == Completed(old(world), c, RefreshReq(token), env)
      ensures c in world.calls && world.calls[c].pc.Done? && r == Handed(world.calls[c].pc.outcome)
      ensures env(0).fault != Fine ==> r == Err(Unavailable) && sessions.rows == old(sessions.rows)
      ensures env(0).fault == Fine ==>
                match Holder(old(sessions.rows), token)
                case None => r == Err(NotFound) && sessions.rows == old(sessions.rows)
                case Some(p) =>
                  var row := old(sessions.rows)[p];
                  if row.status.Active? && old(clock.now) + env(0).dt + env(1).dt <= row.refreshExpiresAt
                  then
                    && (r.Ok? <==> env(4).fault == Fine && env(6).fault == Fine && env(7).fault == Fine)
                    && (r.Err? ==> r.error == Unavailable)
                    && (r.Ok? ==> r.value.access.userId == row.userId && r.value.access.appId == row.appId)
                    && (r.Ok? ==> p in sessions.rows && (sessions.rows[p].status.Revoked? <==> env(2).fault != Lost))
                  else r == Err(InvalidRefreshToken) && sessions.rows == old(sessions.rows)
      ensures r.Ok? ==>
                var (access, id) := (r.value.access, r.value.access.sessionId);
                && access.expiresAt == clock.now + cfg.accessTtl && id !in old(sessions.rows) && id in sessions.rows
                && sessions.rows[id] == Row(access.userId, access.appId, r.value.refresh, r.value.refreshExpiresAt, Active,
                                            sessions.rows[id].updatedAt)
    {
      ghost var w0, req := world, RefreshReq(token);
      BeginCall(c, req, env);
      var found := FindByToken(w0, c, req, token, env);
      if found.Err? {
        WitnessDone(w0, c, req, env, trail);
        return Err(found.error);
      }
      var session := found.value;
      var now := ReadClock(w0, c, req, env, 1, RefreshCheck(session));
      if session.status != Active || now > session.refreshExpiresAt {
        WitnessDone(w0, c, req, env, trail);
        return Err(InvalidRefreshToken);
      }
      r := Replace(w0, c, req, session, token, env);
    }

    /** Rotation of a session that passed the check: revoke it, take it out of the cache, and issue the next one.
        The results of the first two are ignored. */
    method Replace(ghost w0: World, ghost c: int, ghost req: Request, session: Session, token: Token, env: Env)
      returns (r: Result<TokenPair>)
      requires req == RefreshReq(token) && At(w0, c, req, env, 2, RefreshRevoke(session)) && Novel(w0, env)
      requires session.id in sessions.rows && sessions.rows[session.id].token == token
      requires sessions.rows[session.id].status.Active?
      modifies this`world, this`trail, sessions, cache, clock
      ensures Valid() && world == Completed(w0, c, req, env)
      ensures c in world.calls && world.calls[c].pc.Done? && r == Handed(world.calls[c].pc.outcome)
      ensures r.Ok? <==> env(4).fault == Fine && env(6).fault == Fine && env(7).fault == Fine
      ensures r.Err? ==> r.error == Unavailable
      ensures r.Ok? ==>
                var (access, id) := (r.value.access, r.value.access.sessionId);
                && access == Access(session.userId, id, session.appId, clock.now + cfg.accessTtl)
                && id !in old(sessions.rows) && id in sessions.rows
                && sessions.rows[id] == Row(access.userId, access.appId, r.value.refresh, r.value.refreshExpiresAt, Active,
                                            sessions.rows[id].updatedAt)
                && session.id in sessions.rows
                && (sessions.rows[session.id].status.Revoked? <==> env(2).fault != Lost)
    {
      var revoked := Revoke(w0, c, req, session, token, env, 2, RefreshRevoke(session));
      RevokeHolder(old(sessions.rows), token, clock.now, session.id);
      Delete(w0, c, req, session, env, 3, RefreshEvict(session));
      Untouched(w0, c, req, env, trail, 4);
      r := Issue(w0, c, req, env, 4, session.userId, session.appId, Some(session.id));
    }

    method GetCached(ghost w0: World, ghost c: int, ghost req: Request, id: int, env: Env)
      returns (got: Result<Option<Session>>, ghost source: Source)
      requires req == ValidateReq(id) && At(w0, c, req, env, 0, CacheRead)
      modifies this`world, this`trail, clock
      ensures At(w0, c, req, env, 1,
                 if got.Ok? && got.value.Some? then Check(got.value.value, source) else TableRead)
      ensures got.Ok? && got.value.Some? ==> id in cache.entries && got.value.value == cache.entries[id].session
    {
      clock.Advance(env(0).dt);
      got := cache.GetSession(id, clock.now, env(0).fault);
      source := Cached(world.st.(now := clock.now), id);
      WitnessNext(w0, c, req, env, trail, Next(world, Step.Go(c, env(0))));
      Go(c, env(0));
    }

    method ReadTable(ghost w0: World, ghost c: int, ghost req: Request, id: int, env: Env)
      returns (read: Result<Session>)
      requires req == ValidateReq(id) && At(w0, c, req, env, 1, TableRead)
      modifies this`world, this`trail, clock
      ensures At(w0, c, req, env, 2,
                 match read case Ok(s) => CacheTtl(s, clock.now) case Err(e) => Done(Failed(e)))
      ensures read == if env(1).fault != Fine then Err(Unavailable)
                      else if id in sessions.rows then Ok(Read(sessions.rows, id)) else Err(NotFound)
    {
      clock.Advance(env(1).dt);
      read := sessions.SessionByID(id, env(1).fault);
      WitnessNext(w0, c, req, env, trail, Next(world, Step.Go(c, env(1))));
      Go(c, env(1));
    }

    method WriteCache(ghost w0: World, ghost c: int, ghost req: Request, id: int, session: Session,
                      ghost readAt: int, env: Env)
      requires req == ValidateReq(id) && At(w0, c, req, env, 2, CacheTtl(session, readAt))
      modifies this`world, this`trail, cache, clock
      ensures At(w0, c, req, env, 4, Check(session, FromTable(readAt)))
    {
      var computedAt := ReadClock(w0, c, req, env, 2, CacheTtl(session, readAt));
      StoreCopy(w0, c, req, id, session, readAt, computedAt, env);
    }

    method StoreCopy(ghost w0: World, ghost c: int, ghost req: Request, id: int, session: Session,
                     ghost readAt: int, computedAt: int, env: Env)
      requires req == ValidateReq(id)
      requires At(w0, c, req, env, 3, CacheWrite(session, readAt, Ttl(session.refreshExpiresAt, computedAt)))
      modifies this`world, this`trail, cache, clock
      ensures At(w0, c, req, env, 4, Check(session, FromTable(readAt)))
    {
      clock.Advance(env(3).dt);
      var stored := cache.SetSession(id, session, computedAt, clock.now, env(3).fault);
      WitnessNext(w0, c, req, env, trail, Next(world, Step.Go(c, env(3))));
      Go(c, env(3));
    }

    method ValidateSession(ghost c: int, id: int, env: Env) returns (r: Result<bool>)
      requires Valid() && c !in world.calls
      modifies this`world, this`trail, cache, clock
      ensures Valid() && world == Completed(old(world), c, ValidateReq(id), env)
      ensures c in world.calls && world.calls[c].pc.Done? && r == Reported(world.calls[c].pc.outcome)
      ensures r == Ok(false) ==>
                id in sessions.rows && (sessions.rows[id].status.Revoked? || sessions.rows[id].refreshExpiresAt <= clock.now)
      ensures r == Ok(true) ==> id in sessions.rows && clock.now < sessions.rows[id].refreshExpiresAt
      ensures id in sessions.rows && env(1).fault == Fine
              && (id in old(cache.entries) ==> old(cache.entries)[id].session == Read(sessions.rows, id)) ==>
                r == Ok(sessions.rows[id].status.Active? && clock.now < sessions.rows[id].refreshExpiresAt)
      ensures id !in sessions.rows ==> r == Err(if env(1).fault == Fine then NotFound else Unavailable)
    {
      ghost var w0, req := world, ValidateReq(id);
      BeginCall(c, req, env);
      var got, source := GetCached(w0, c, req, id, env);
      if got.Err? || got.value.None? {
        r := ReadThrough(w0, c, req, id, env);
        return;
      }
      var session := got.value.value;
      CheckedIs(world, c, id, session, source);
      var now := ReadClock(w0, c, req, env, 1, Check(session, source));
      WitnessDone(w0, c, req, env, trail);
      return Ok(IsSessionActive(session, now));
    }

    /** The miss path of a validation: read the table, store the copy, judge it. */
    method ReadThrough(ghost w0: World, ghost c: int, ghost req: Request, id: int, env: Env) returns (r: Result<bool>)
      requires req == ValidateReq(id) && At(w0, c, req, env, 1, TableRead)
      modifies this`world, this`trail, cache, clock
      ensures Valid() && world == Completed(w0, c, req, env)
      ensures c in world.calls && world.calls[c].pc.Done? && r == Reported(world.calls[c].pc.outcome)
      ensures r == if env(1).fault != Fine then Err(Unavailable)
                   else if id !in sessions.rows then Err(NotFound)
                   else Ok(sessions.rows[id].status.Active? && clock.now < sessions.rows[id].refreshExpiresAt)
    {
      var read := ReadTable(w0, c, req, id, env);
      if read.Err? {
        WitnessDone(w0, c, req, env, trail);
        return Err(read.error);
      }
      var session := read.value;
      ghost var readAt := clock.now;
      WriteCache(w0, c, req, id, session, readAt, env);
      var now := ReadClock(w0, c, req, env, 4, Check(session, FromTable(readAt)));
      WitnessDone(w0, c, req, env, trail);
      return Ok(IsSessionActive(session, now));
    }
  }

  /** Where a step that only reads the clock leads. */
  function AtTime(cfg: Config, req: Request, pc: Pc, now: int): Pc {
    match pc
    case RefreshCheck(s) =>
      if s.status != Active || now > s.refreshExpiresAt then Done(Failed(InvalidRefreshToken)) else RefreshRevoke(s)
    case MakeExpiry(u, a, from, token) => Insert(u, a, from, token, now + cfg.refreshTtl)
    case CacheTtl(s, readAt) => CacheWrite(s, readAt, Ttl(s.refreshExpiresAt, now))
    case Check(s, source) => Done(Answer(IsSessionActive(s, now), req.Subject(), source, now))
    case _ => pc
  }

  lemma DrawMove(w: World, c: int, ch: Choice)
    requires c in w.calls && w.calls[c].pc.MakeToken? && ch.token !in w.st.drawn
    ensures var w', pc := Next(w, Step.Go(c, ch)), w.calls[c].pc;
            && w'.cfg == w.cfg && c in w'.calls && w'.calls[c].req == w.calls[c].req
            && w'.calls[c].pc == (if ch.fault == Fine then MakeExpiry(pc.userId, pc.appId, pc.from, ch.token)
                                  else Done(Failed(Unavailable)))
            && w'.st.now == w.st.now + ch.dt && w'.st.table == w.st.table && w'.st.nextId == w.st.nextId
            && w'.st.cache == w.st.cache
  {
  }

  lemma RevokeMove(w: World, c: int, ch: Choice)
    requires c in w.calls && (w.calls[c].pc.LogoutRevoke? || w.calls[c].pc.RefreshRevoke?)
    ensures var w', pc, token := Next(w, Step.Go(c, ch)), w.calls[c].pc, w.calls[c].req.Bearer();
            && w'.cfg == w.cfg && c in w'.calls && w'.calls[c].req == w.calls[c].req
            && w'.calls[c].pc == (if pc.RefreshRevoke? then RefreshEvict(pc.session)
                                  else Done(if ch.fault == Fine then LoggedOut(Flips(w.st.table, token) != {})
                                            else Failed(Unavailable)))
            && w'.st.now == w.st.now + ch.dt && w'.st.nextId == w.st.nextId && w'.st.cache == w.st.cache
            && w'.st.table == (if ch.fault == Lost then w.st.table else Revoke(w.st.table, token, w'.st.now))
  {
  }

  /** Before its draw a rotation has drawn nothing. */
  lemma Untouched(w0: World, c: int, req: Request, env: Env, trail: seq<World>, k: nat)
    requires Witnessed(w0, c, req, env, trail) && k < |trail| && Novel(w0, env)
    requires c in trail[k].calls && Undrawn(trail[k].calls[c].pc)
    ensures env(k).token !in trail[k].st.drawn
  {
    WitnessProgress(w0, c, req, env, trail, k);
    ProgressShortens(w0, c, req, env, k);
  }

  function AfterLookup(req: Request, found: Result<Session>): Pc {
    match found
    case Ok(s) => if req.LogoutReq? then LogoutEvict(s) else RefreshCheck(s)
    case Err(e) => Done(if req.LogoutReq? && e != NotFound then LoggedOut(false) else Failed(e))
  }
}
