/** Rotation in runs of whole calls: the sessions that descend from one login form a chain. */
module AuthChains {
  import opened Common
  import opened SessionTable
  import opened AuthMachine
  import opened AuthTable
  import opened AuthCalls
  import opened AuthAtomic
  import Lineage = AuthLineage

  /** The session `id` replaced, if it did replace one. Ids grow, so following it ends. */
  function Parent(st: State, id: int): Option<int> {
    if id in st.origin && 0 < st.origin[id] < id then Some(st.origin[id]) else None
  }

  /** The session of the login `id` descends from. */
  function Root(st: State, id: int): int
    decreases id
  {
    match Parent(st, id) case None => id case Some(p) => Root(st, p)
  }

  /** How many rotations lie between that login and `id`. */
  function Generation(st: State, id: int): nat
    decreases id
  {
    match Parent(st, id) case None => 0 case Some(p) => 1 + Generation(st, p)
  }

  predicate Childless(st: State, id: int) {
    forall child :: child in st.origin ==> st.origin[child] != id
  }

  /** A replaced session is revoked, and has one successor. */
  ghost predicate ChainInv(st: State) {
    && (forall id :: id in st.origin ==>
          && id in st.table && st.origin[id] in st.table && 0 < st.origin[id] < id
          && st.table[st.origin[id]].status.Revoked?
          && st.table[st.origin[id]].userId == st.table[id].userId
          && st.table[st.origin[id]].appId == st.table[id].appId)
    && (forall a, b :: a in st.origin && b in st.origin && st.origin[a] == st.origin[b] ==> a == b)
    && (forall id :: id in st.table ==> 0 < id < st.nextId)
    && 0 < st.nextId
  }

  /** Same login and same generation: same session. */
  lemma {:induction false} ChainLinear(st: State, a: int, b: int)
    requires ChainInv(st)
    requires Root(st, a) == Root(st, b) && Generation(st, a) == Generation(st, b)
    ensures a == b
    decreases a
  {
    if Parent(st, a).Some? {
      ChainLinear(st, st.origin[a], st.origin[b]);
    }
  }

  lemma {:induction false} ChainOwner(st: State, a: int)
    requires ChainInv(st) && a in st.table
    ensures var r := Root(st, a);
            r in st.table && st.table[r].userId == st.table[a].userId && st.table[r].appId == st.table[a].appId
    decreases a
  {
    if Parent(st, a).Some? { ChainOwner(st, st.origin[a]); }
  }

  /** The ancestor of `a` in an earlier generation. */
  lemma {:induction false} Ancestor(st: State, a: int, g: nat) returns (up: int)
    requires ChainInv(st) && a in st.table && g < Generation(st, a)
    ensures up in st.table && Root(st, up) == Root(st, a) && Generation(st, up) == g && !Childless(st, up)
    decreases a
  {
    up := st.origin[a];
    if g < Generation(st, up) { up := Ancestor(st, up, g); }
  }

  lemma OneActive(st: State, a: int, b: int)
    requires ChainInv(st) && a in st.table && b in st.table && Root(st, a) == Root(st, b)
    requires st.table[a].status.Active? && st.table[b].status.Active?
    ensures a == b
  {
    var x, y := a, b;
    if Generation(st, a) > Generation(st, b) { x, y := b, a; }
    if Generation(st, x) < Generation(st, y) {
      var up := Ancestor(st, y, Generation(st, x));
      ChainLinear(st, up, x);
    } else {
      ChainLinear(st, x, y);
    }
  }

  /** A call that runs alone rotates only a childless, revoked session. */
  ghost predicate RotatesInv(st: State, call: AuthMachine.Call) {
    match call.pc
    case RefreshCheck(s) => Current(st, s) && st.table[s.id].token == call.req.Bearer()
    case RefreshRevoke(s) => Current(st, s) && st.table[s.id].token == call.req.Bearer() && s.status.Active?
    case RefreshEvict(s) => Replaceable(st, s.id, s.userId, s.appId)
    case MakeToken(u, a, from) => from.Some? ==> Replaceable(st, from.value, u, a)
    case MakeExpiry(u, a, from, _) => from.Some? ==> Replaceable(st, from.value, u, a)
    case Insert(u, a, from, _, _) => from.Some? ==> Replaceable(st, from.value, u, a)
    case _ => true
  }

  ghost predicate Replaceable(st: State, id: int, userId: int, appId: int) {
    && id in st.table && st.table[id].status.Revoked? && Childless(st, id)
    && st.table[id].userId == userId && st.table[id].appId == appId
  }

  lemma RotatesMoves(cfg: Config, st: State, c: int, call: AuthMachine.Call, ch: Choice)
    requires TokensUnique(st.table) && ChainInv(st) && RotatesInv(st, call) && !call.pc.Done?
    requires call.pc.RefreshRevoke? ==> ch.fault != Lost
    ensures var m := Decide(cfg, st, call, ch); RotatesInv(Apply(st, c, m.effect), call.(pc := m.pc))
  {
  }

  lemma DecideInserts(cfg: Config, st: State, call: AuthMachine.Call, ch: Choice)
    requires RotatesInv(st, call)
    ensures var e := Decide(cfg, st, call, ch).effect;
            e.InsertRow? ==>
              e.id >= st.nextId && (e.from.Some? ==> Replaceable(st, e.from.value, e.row.userId, e.row.appId))
  {
  }

  lemma ApplyChain(st: State, c: int, e: Effect)
    requires ChainInv(st)
    requires e.InsertRow? ==>
      e.id >= st.nextId && (e.from.Some? ==> Replaceable(st, e.from.value, e.row.userId, e.row.appId))
    ensures ChainInv(Apply(st, c, e))
  {
    match e
    case InsertRow(id, _, _) => assert id !in st.origin;
    case _ =>
  }

  /** Call `c` is alone in `w` and rotates as it should. */
  ghost predicate ChainsAt(w: World, c: int) {
    ChainInv(w.st) && c in w.calls && RotatesInv(w.st, w.calls[c])
  }

  lemma GoChains(w: World, c: int, ch: Choice)
    requires Reachable(w) && ChainsAt(w, c)
    requires w.calls[c].pc.RefreshRevoke? ==> ch.fault != Lost
    ensures ChainsAt(Next(w, Go(c, ch)), c)
  {
    if Enabled(w, Go(c, ch)) {
      ReachableTable(w);
      var now := Elapse(w, ch.dt);
      ElapseRotates(w.st, now.st.now, w.calls[c]);
      DecideInserts(w.cfg, now.st, w.calls[c], ch);
      ApplyChain(now.st, c, Decide(w.cfg, now.st, w.calls[c], ch).effect);
      RotatesMoves(w.cfg, now.st, c, w.calls[c], ch);
    }
  }

  lemma ElapseRotates(st: State, now: int, call: AuthMachine.Call)
    requires ChainInv(st) && RotatesInv(st, call)
    ensures ChainInv(st.(now := now)) && RotatesInv(st.(now := now), call)
  {
  }

  /** The revocation inside a whole rotation takes effect. */
  predicate RevocationWorks(a: Whole) {
    a.Call? ==> Revokes(a.req, a.env)
  }

  predicate Revokes(req: Request, env: Env) {
    req.RefreshReq? ==> env(REFRESH_REVOCATION).fault != Lost
  }

  lemma RevocationNumber(w: World, c: int, req: Request, env: Env, k: nat)
    requires Revokes(req, env)
    ensures var v := Progress(w, c, req, env, k);
            c in v.calls && (v.calls[c].pc.RefreshRevoke? ==> env(k).fault != Lost)
  {
    ProgressCounts(w, c, req, env, k);
  }

  lemma {:induction false} ProgressChains(w: World, c: int, req: Request, env: Env, k: nat)
    requires Reachable(w) && c !in w.calls && Revokes(req, env) && ChainsAt(Begin(w, c, req), c)
    ensures ChainsAt(Progress(w, c, req, env, k), c)
  {
    if k > 0 {
      ProgressChains(w, c, req, env, k - 1);
      ProgressReachable(w, c, req, env, k - 1);
      RevocationNumber(w, c, req, env, k - 1);
      ProgressNext(w, c, req, env, k);
      GoChains(Progress(w, c, req, env, k - 1), c, env(k - 1));
    }
  }

  lemma {:induction false} PlayChains(cfg: Config, run: seq<Whole>)
    requires forall a :: a in run ==> RevocationWorks(a)
    ensures Reachable(PlayAll(Init(cfg), run)) && ChainInv(PlayAll(Init(cfg), run).st)
  {
    PlayReachable(cfg, run);
    if run != [] {
      var before := run[..|run| - 1];
      PlayChains(cfg, before);
      OneChains(PlayAll(Init(cfg), before), run[|run| - 1]);
    }
  }

  lemma OneChains(w: World, a: Whole)
    requires Reachable(w) && ChainInv(w.st) && RevocationWorks(a)
    ensures ChainInv(Play(w, a).st)
  {
    match a
    case Call(c, req, env) =>
      if c !in w.calls {
        BeginChains(w, c, req);
        ProgressChains(w, c, req, env, LONGEST);
      }
    case Pause(dt) =>
    case Drop(id) =>
  }

  lemma BeginChains(w: World, c: int, req: Request)
    requires ChainInv(w.st)
    ensures ChainsAt(Begin(w, c, req), c)
  {
  }

  /** In every run of whole calls whose revocations take effect: sessions of one login have one owner
      and application, one session per generation, and at most one of them is active. */
  lemma RotationsFormChains(cfg: Config, run: seq<Whole>, a: int, b: int)
    requires forall x :: x in run ==> RevocationWorks(x)
    ensures var st := PlayAll(Init(cfg), run).st;
            a in st.table && b in st.table && Root(st, a) == Root(st, b) ==>
              && st.table[a].userId == st.table[b].userId && st.table[a].appId == st.table[b].appId
              && (Generation(st, a) == Generation(st, b) ==> a == b)
              && (st.table[a].status.Active? && st.table[b].status.Active? ==> a == b)
  {
    PlayChains(cfg, run);
    var st := PlayAll(Init(cfg), run).st;
    if a in st.table && b in st.table && Root(st, a) == Root(st, b) {
      ChainOwner(st, a);
      ChainOwner(st, b);
      if Generation(st, a) == Generation(st, b) { ChainLinear(st, a, b); }
      if st.table[a].status.Active? && st.table[b].status.Active? { OneActive(st, a, b); }
    }
  }

  ghost predicate Rotated(w: World, c: int, token: Token) {
    c in w.calls && w.calls[c].req == RefreshReq(token) && w.calls[c].pc.Done? && w.calls[c].pc.outcome.Issued?
  }

  /** In such runs each refresh token is exchanged at most once. */
  lemma TokensAreSingleUse(cfg: Config, run: seq<Whole>, token: Token, c: int, d: int)
    requires forall x :: x in run ==> RevocationWorks(x)
    ensures Rotated(PlayAll(Init(cfg), run), c, token) && Rotated(PlayAll(Init(cfg), run), d, token) ==> c == d
  {
    PlayChains(cfg, run);
    var w := PlayAll(Init(cfg), run);
    if Rotated(w, c, token) && Rotated(w, d, token) {
      Lineage.ReachableInv(w);
      var x := IssuedSession(w, c, token);
      var y := IssuedSession(w, d, token);
      assert w.st.origin[x] == w.st.origin[y];
    }
  }

  lemma IssuedSession(w: World, c: int, token: Token) returns (id: int)
    requires Lineage.Inv(w) && Rotated(w, c, token)
    ensures w.st.Made(id, c) && id in w.st.origin
    ensures w.st.origin[id] in w.st.table && w.st.table[w.st.origin[id]].token == token
  {
    id := w.calls[c].pc.outcome.pair.access.sessionId;
    assert Lineage.CallInv(w.st, c, w.calls[c]);
    assert Lineage.OriginsInv(w);
    assert Lineage.OriginInv(w.st, id, w.calls[c].req);
  }
}
