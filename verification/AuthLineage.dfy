/** Who created, rotated and revoked each session, in every interleaving. */
module AuthLineage {
  import opened Common
  import opened SessionTable
  import opened AuthMachine
  import opened AuthTable

  /** The row a pair of issued tokens stands for. */
  ghost predicate Matches(st: State, id: int, userId: int, appId: int, token: Token, expiry: int) {
    && id in st.table
    && var r := st.table[id];
       r.userId == userId && r.appId == appId && r.token == token && r.refreshExpiresAt == expiry
  }

  /** A call that is about to create a session works for a login, or rotates `from`. */
  ghost predicate Entitled(st: State, req: Request, userId: int, appId: int, from: Option<int>) {
    match from
    case None => req == LoginReq(userId, appId)
    case Some(p) =>
      p in st.table && req == RefreshReq(st.table[p].token)
      && st.table[p].userId == userId && st.table[p].appId == appId
  }

  ghost predicate Found(st: State, req: Request, s: Session) {
    s.id in st.table && req.Bearer() == st.table[s.id].token
    && s.userId == st.table[s.id].userId && s.appId == st.table[s.id].appId
  }

  ghost predicate Creates(st: State, c: int) {
    exists id :: id in st.creator && st.creator[id] == c
  }

  ghost predicate Revokes(st: State, c: int) {
    exists id :: id in st.flipper && st.flipper[id] == c
  }

  ghost predicate CallInv(st: State, c: int, call: Call) {
    match call.pc
    case MakeToken(u, a, from) => Entitled(st, call.req, u, a, from) && !Creates(st, c)
    case MakeExpiry(u, a, from, _) => Entitled(st, call.req, u, a, from) && !Creates(st, c)
    case Insert(u, a, from, _, _) => Entitled(st, call.req, u, a, from) && !Creates(st, c)
    case MakeAccess(u, a, id, token, expiry) =>
      !call.req.LogoutReq? && Matches(st, id, u, a, token, expiry) && st.Made(id, c)
    case RefreshLookup => call.req.RefreshReq? && !Creates(st, c)
    case RefreshCheck(s) => call.req.RefreshReq? && Found(st, call.req, s) && !Creates(st, c)
    case RefreshRevoke(s) => call.req.RefreshReq? && Found(st, call.req, s) && !Creates(st, c)
    case RefreshEvict(s) => call.req.RefreshReq? && Found(st, call.req, s) && !Creates(st, c)
    case LogoutLookup => call.req.LogoutReq? && !Creates(st, c) && !Revokes(st, c)
    case LogoutEvict(s) => call.req.LogoutReq? && Found(st, call.req, s) && !Creates(st, c) && !Revokes(st, c)
    case LogoutRevoke(s) => call.req.LogoutReq? && Found(st, call.req, s) && !Creates(st, c) && !Revokes(st, c)
    case Done(o) => OutcomeInv(st, c, call.req, o)
    case _ => call.req.ValidateReq? && !Creates(st, c) && !Revokes(st, c)
  }

  ghost predicate OutcomeInv(st: State, c: int, req: Request, o: Outcome) {
    match o
    case Issued(pair) =>
      !req.LogoutReq?
      && Matches(st, pair.access.sessionId, pair.access.userId, pair.access.appId, pair.refresh, pair.refreshExpiresAt)
      && st.Made(pair.access.sessionId, c)
    case LoggedOut(ok) => req.LogoutReq? && !Creates(st, c) && (ok <==> Revokes(st, c))
    case Answer(_, _, _, _) => req.ValidateReq? && !Creates(st, c) && !Revokes(st, c)
    case Failed(_) => true
  }

  /** The histories are defined exactly where they should be. */
  ghost predicate Recorded(st: State) {
    && st.creator.Keys == st.table.Keys
    && (forall id :: id in st.origin ==> id in st.table)
    && (forall id :: id in st.flipper <==> id in st.table && st.table[id].status.Revoked?)
  }

  /** A row has one creator, and a call creates at most one row. */
  ghost predicate CreatorsInv(w: World) {
    var made := w.st.creator;
    && (forall id :: id in made ==> made[id] in w.calls && Inserted(w.calls[made[id]].pc))
    && (forall a, b :: a in made && b in made && made[a] == made[b] ==> a == b)
  }

  /** A session made by a rotation has the owner of the one it replaced, and a later id. */
  ghost predicate OriginsInv(w: World) {
    forall id :: id in w.st.creator && id in w.st.table && w.st.creator[id] in w.calls ==>
      OriginInv(w.st, id, w.calls[w.st.creator[id]].req)
  }

  ghost predicate FlippersInv(w: World) {
    forall id :: id in w.st.flipper ==>
      id in w.st.table && w.st.flipper[id] in w.calls && w.calls[w.st.flipper[id]].req.Bearer() == w.st.table[id].token
  }

  ghost predicate PastInv(w: World) {
    Recorded(w.st) && CreatorsInv(w) && OriginsInv(w) && FlippersInv(w)
  }

  predicate Inserted(pc: Pc) {
    pc.MakeAccess? || pc.Done?
  }

  ghost predicate OriginInv(st: State, id: int, req: Request)
    requires id in st.table
  {
    && Entitled(st, req, st.table[id].userId, st.table[id].appId, st.From(id))
    && (id in st.origin ==> st.origin[id] < id)
  }

  ghost predicate Inv(w: World) {
    && TableInv(w)
    && PastInv(w)
    && forall c :: c in w.calls ==> CallInv(w.st, c, w.calls[c])
  }

  /** `s'` is `s` after an access by call `c`: nobody else created or revoked anything. */
  ghost predicate After(s: State, s': State, c: int) {
    && Grows(s, s')
    && (forall id :: id in s.creator ==> s'.Made(id, s.creator[id]))
    && (forall id :: id in s'.creator ==> id in s.creator || s'.creator[id] == c)
    && (forall id :: id in s.flipper ==> id in s'.flipper && s'.flipper[id] == s.flipper[id])
    && (forall id :: id in s'.flipper ==> id in s.flipper || s'.flipper[id] == c)
    && (forall id :: id in s.table ==> s'.From(id) == s.From(id))
  }

  lemma ApplyAfter(st: State, c: int, e: Effect)
    requires Recorded(st)
    requires e.InsertRow? ==> e.id !in st.table && e.row.status.Active?
    ensures After(st, Apply(st, c, e), c)
  {
    ApplyGrows(st, c, e);
  }

  lemma ApplyRecorded(st: State, c: int, e: Effect)
    requires Recorded(st)
    requires e.InsertRow? ==> e.id !in st.table && e.row.status.Active?
    ensures Recorded(Apply(st, c, e))
  {
  }

  lemma OthersStable(s: State, s': State, c: int, d: int, call: Call)
    requires After(s, s', c) && d != c && CallInv(s, d, call)
    ensures CallInv(s', d, call)
  {
    CreatesStable(s, s', c, d);
  }

  lemma CreatesStable(s: State, s': State, c: int, d: int)
    requires After(s, s', c) && d != c
    ensures Creates(s', d) == Creates(s, d) && Revokes(s', d) == Revokes(s, d)
  {
    if id :| id in s.creator && s.creator[id] == d { assert id in s'.creator; }
    if id :| id in s'.creator && s'.creator[id] == d { assert id in s.creator; }
    if id :| id in s.flipper && s.flipper[id] == d { assert id in s'.flipper; }
    if id :| id in s'.flipper && s'.flipper[id] == d { assert id in s.flipper; }
  }

  predicate Issuing(pc: Pc) {
    pc.MakeToken? || pc.MakeExpiry? || pc.Insert? || pc.MakeAccess?
  }

  lemma IssuerKeeps(cfg: Config, st: State, c: int, call: Call, ch: Choice)
    requires Recorded(st) && CallInv(st, c, call) && Issuing(call.pc)
    requires forall id :: id in st.table ==> id < st.nextId
    ensures var m := Decide(cfg, st, call, ch); CallInv(Apply(st, c, m.effect), c, call.(pc := m.pc))
  {
  }

  lemma RefresherKeeps(cfg: Config, st: State, c: int, call: Call, ch: Choice)
    requires CallInv(st, c, call)
    requires call.pc.RefreshLookup? || call.pc.RefreshCheck? || call.pc.RefreshRevoke? || call.pc.RefreshEvict?
    ensures var m := Decide(cfg, st, call, ch); CallInv(Apply(st, c, m.effect), c, call.(pc := m.pc))
  {
  }

  lemma LogoutKeeps(cfg: Config, st: State, c: int, call: Call, ch: Choice)
    requires Recorded(st) && CallInv(st, c, call)
    requires call.pc.LogoutLookup? || call.pc.LogoutEvict? || call.pc.LogoutRevoke?
    ensures var m := Decide(cfg, st, call, ch); CallInv(Apply(st, c, m.effect), c, call.(pc := m.pc))
  {
    if call.pc.LogoutRevoke? {
      RevocationRecorded(st, c, call.req.Bearer());
    }
  }

  lemma RevocationRecorded(st: State, c: int, token: Token)
    requires !Revokes(st, c)
    ensures Revokes(Apply(st, c, RevokeToken(token)), c) <==> Flips(st.table, token) != {}
  {
    var st' := Apply(st, c, RevokeToken(token));
    var flips := Flips(st.table, token);
    if id :| id in st.table && st.table[id].token == token && st.table[id].status.Active? {
      assert id in flips;
      assert id in st'.flipper && st'.flipper[id] == c;
    } else {
      forall id | id in flips ensures false {}
      assert forall id :: id in st'.flipper ==> id in st.flipper && st'.flipper[id] == st.flipper[id];
    }
  }

  lemma ValidatorKeeps(cfg: Config, st: State, c: int, call: Call, ch: Choice)
    requires CallInv(st, c, call)
    requires call.pc.CacheRead? || call.pc.TableRead? || call.pc.CacheTtl? || call.pc.CacheWrite? || call.pc.Check?
    ensures var m := Decide(cfg, st, call, ch); CallInv(Apply(st, c, m.effect), c, call.(pc := m.pc))
  {
  }

  lemma MoverKeeps(cfg: Config, st: State, c: int, call: Call, ch: Choice)
    requires RowsInv(st) && Recorded(st) && CallInv(st, c, call) && !call.pc.Done?
    ensures var m := Decide(cfg, st, call, ch); CallInv(Apply(st, c, m.effect), c, call.(pc := m.pc))
  {
    match call.pc
    case MakeToken(_, _, _) => IssuerKeeps(cfg, st, c, call, ch);
    case MakeExpiry(_, _, _, _) => IssuerKeeps(cfg, st, c, call, ch);
    case Insert(_, _, _, _, _) => IssuerKeeps(cfg, st, c, call, ch);
    case MakeAccess(_, _, _, _, _) => IssuerKeeps(cfg, st, c, call, ch);
    case RefreshLookup => RefresherKeeps(cfg, st, c, call, ch);
    case RefreshCheck(_) => RefresherKeeps(cfg, st, c, call, ch);
    case RefreshRevoke(_) => RefresherKeeps(cfg, st, c, call, ch);
    case RefreshEvict(_) => RefresherKeeps(cfg, st, c, call, ch);
    case LogoutLookup => LogoutKeeps(cfg, st, c, call, ch);
    case LogoutEvict(_) => LogoutKeeps(cfg, st, c, call, ch);
    case LogoutRevoke(_) => LogoutKeeps(cfg, st, c, call, ch);
    case _ => ValidatorKeeps(cfg, st, c, call, ch);
  }

  /** What makes a move respect the histories. */
  ghost predicate Proper(st: State, c: int, call: Call, m: Move) {
    && (m.effect.InsertRow? ==>
          && Inserted(m.pc) && !Creates(st, c)
          && Entitled(st, call.req, m.effect.row.userId, m.effect.row.appId, m.effect.from))
    && (m.effect.RevokeToken? ==> m.effect.token == call.req.Bearer())
    && (Inserted(call.pc) ==> Inserted(m.pc))
  }

  function Moved(w: World, c: int, m: Move): World
    requires c in w.calls
  {
    World(w.cfg, Apply(w.st, c, m.effect), w.calls[c := w.calls[c].(pc := m.pc)])
  }

  lemma CreatorsKeep(w: World, c: int, m: Move)
    requires CreatorsInv(w) && c in w.calls && Proper(w.st, c, w.calls[c], m)
    ensures CreatorsInv(Moved(w, c, m))
  {
    if m.effect.InsertRow? {
      CreatorAdded(w, c, m);
    } else {
      assert Apply(w.st, c, m.effect).creator == w.st.creator;
    }
  }

  lemma CreatorAdded(w: World, c: int, m: Move)
    requires CreatorsInv(w) && c in w.calls && m.effect.InsertRow? && Inserted(m.pc)
    requires forall id :: id in w.st.creator ==> w.st.creator[id] != c
    ensures CreatorsInv(Moved(w, c, m))
  {
  }

  lemma OriginsKeep(w: World, c: int, m: Move)
    requires RowsInv(w.st) && Recorded(w.st) && CreatorsInv(w) && OriginsInv(w)
    requires c in w.calls && Proper(w.st, c, w.calls[c], m)
    requires Admissible(w.st, w.calls[c].pc, m.effect, m.pc)
    ensures OriginsInv(Moved(w, c, m))
  {
    var w' := Moved(w, c, m);
    ApplyGrows(w.st, c, m.effect);
    forall id | id in w'.st.creator && id in w'.st.table && w'.st.creator[id] in w'.calls
      ensures OriginInv(w'.st, id, w'.calls[w'.st.creator[id]].req)
    {
      if !m.effect.InsertRow? || id != m.effect.id {
        assert OriginInv(w.st, id, w.calls[w.st.creator[id]].req);
      }
    }
  }

  lemma FlippersKeep(w: World, c: int, m: Move)
    requires FlippersInv(w) && c in w.calls && Proper(w.st, c, w.calls[c], m)
    requires m.effect.InsertRow? ==> m.effect.id !in w.st.table
    ensures FlippersInv(Moved(w, c, m))
  {
  }

  lemma DecideProper(cfg: Config, st: State, c: int, call: Call, ch: Choice)
    requires CallInv(st, c, call) && !call.pc.Done?
    ensures Proper(st, c, call, Decide(cfg, st, call, ch))
  {
  }

  lemma ElapseKeeps(w: World, dt: nat)
    requires Inv(w)
    ensures Inv(Elapse(w, dt))
  {
    var w' := Elapse(w, dt);
    forall c | c in w.calls ensures CallInv(w'.st, c, w.calls[c]) { SameCall(w.st, w'.st, c, w.calls[c]); }
  }

  lemma SameCall(s: State, s': State, c: int, call: Call)
    requires s'.table == s.table && s'.creator == s.creator && s'.flipper == s.flipper && s'.origin == s.origin
    requires CallInv(s, c, call)
    ensures CallInv(s', c, call)
  {
    assert Creates(s', c) == Creates(s, c) && Revokes(s', c) == Revokes(s, c);
  }

  lemma StepKeeps(w: World, s: Step)
    requires Inv(w)
    ensures Inv(Next(w, s))
  {
    StepTable(w, s);
    var w' := Next(w, s);
    match s
    case Tick(dt) => ElapseKeeps(w, dt);
    case Expel(_) =>
      forall c | c in w.calls ensures CallInv(w'.st, c, w.calls[c]) { SameCall(w.st, w'.st, c, w.calls[c]); }
    case Start(c, req) => StartKeeps(w, c, req);
    case Go(c, ch) =>
      if Enabled(w, s) {
        ElapseKeeps(w, ch.dt);
        ActKeeps(Elapse(w, ch.dt), c, ch);
      }
  }

  lemma StartKeeps(w: World, c: int, req: Request)
    requires Inv(w)
    ensures PastInv(Next(w, Start(c, req)))
    ensures forall d :: d in Next(w, Start(c, req)).calls ==> CallInv(w.st, d, Next(w, Start(c, req)).calls[d])
  {
    if c !in w.calls {
      assert !Creates(w.st, c);
      assert !Revokes(w.st, c);
    }
  }

  lemma ActKeeps(w: World, c: int, ch: Choice)
    requires Inv(w) && c in w.calls && !w.calls[c].pc.Done? && !Repeats(w.st, w.calls[c].pc, ch)
    ensures PastInv(Act(w, c, ch))
    ensures forall d :: d in Act(w, c, ch).calls ==> CallInv(Act(w, c, ch).st, d, Act(w, c, ch).calls[d])
  {
    var m := Decide(w.cfg, w.st, w.calls[c], ch);
    var st' := Apply(w.st, c, m.effect);
    DecideAdmissible(w.cfg, w.st, w.calls[c], ch);
    DecideProper(w.cfg, w.st, c, w.calls[c], ch);
    MoverKeeps(w.cfg, w.st, c, w.calls[c], ch);
    ApplyRecorded(w.st, c, m.effect);
    CreatorsKeep(w, c, m);
    OriginsKeep(w, c, m);
    FlippersKeep(w, c, m);
    ApplyAfter(w.st, c, m.effect);
    forall d | d in w.calls && d != c ensures CallInv(st', d, w.calls[d]) { OthersStable(w.st, st', c, d, w.calls[d]); }
  }

  lemma {:induction false} RunKeeps(w: World, steps: seq<Step>)
    requires Inv(w)
    ensures Inv(Run(w, steps))
  {
    if steps != [] {
      var before := steps[..|steps| - 1];
      RunKeeps(w, before);
      RunLast(w, steps);
      StepKeeps(Run(w, before), steps[|steps| - 1]);
    }
  }

  lemma ReachableInv(w: World)
    requires Reachable(w)
    ensures Inv(w)
  {
    var steps :| w == Run(Init(w.cfg), steps);
    RunKeeps(Init(w.cfg), steps);
  }

  /** In every interleaving of logins and rotations: the access token of an issued pair names the
      very row that holds the refresh token, with its owner, application and expiry. */
  lemma IssuedPairsMatchRows(cfg: Config, steps: seq<Step>, c: int)
    ensures var w := Run(Init(cfg), steps);
            c in w.calls && w.calls[c].pc.Done? && w.calls[c].pc.outcome.Issued? ==>
              var pair := w.calls[c].pc.outcome.pair;
              && pair.access.sessionId in w.st.table
              && var row := w.st.table[pair.access.sessionId];
                 && row.token == pair.refresh && row.refreshExpiresAt == pair.refreshExpiresAt
                 && row.userId == pair.access.userId && row.appId == pair.access.appId
                 && (forall id :: id in w.st.table && w.st.table[id].token == pair.refresh ==>
                       id == pair.access.sessionId)
  {
    RunKeeps(Init(cfg), steps);
    var w := Run(Init(cfg), steps);
    assert c in w.calls ==> CallInv(w.st, c, w.calls[c]);
  }

  /** A logout that did not fail returns `true` exactly when its own update revoked the row. */
  lemma LogoutTellsTheTruth(cfg: Config, steps: seq<Step>, c: int)
    ensures var w := Run(Init(cfg), steps);
            c in w.calls && w.calls[c].req.LogoutReq? && w.calls[c].pc.Done? && !w.calls[c].pc.outcome.Failed? ==>
              (w.calls[c].pc.outcome == LoggedOut(true) <==>
                 exists id :: id in w.st.table && w.st.table[id].token == w.calls[c].req.token
                              && w.st.table[id].status.Revoked? && id in w.st.flipper && w.st.flipper[id] == c)
  {
    RunKeeps(Init(cfg), steps);
    var w := Run(Init(cfg), steps);
    assert c in w.calls ==> CallInv(w.st, c, w.calls[c]);
    assert Recorded(w.st) && FlippersInv(w);
  }

  ghost predicate LogoutSucceeded(w: World, c: int) {
    c in w.calls && w.calls[c].req.LogoutReq? && w.calls[c].pc == Done(LoggedOut(true))
  }

  /** At most one logout per refresh token returns `true`. */
  lemma OneLogoutSucceeds(cfg: Config, steps: seq<Step>, c: int, d: int)
    ensures var w := Run(Init(cfg), steps);
            LogoutSucceeded(w, c) && LogoutSucceeded(w, d) && w.calls[c].req == w.calls[d].req ==> c == d
  {
    RunKeeps(Init(cfg), steps);
    LogoutTellsTheTruth(cfg, steps, c);
    LogoutTellsTheTruth(cfg, steps, d);
  }
}
