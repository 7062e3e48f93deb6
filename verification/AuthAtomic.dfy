/** Runs in which every call runs from start to end before the next one begins. */
module AuthAtomic {
  import opened Common
  import opened SessionTable
  import opened AuthMachine
  import opened AuthTable
  import opened AuthCalls
  import Lineage = AuthLineage

  datatype Whole =
    | Call(c: int, req: Request, env: Env)
    | Pause(dt: nat)
    | Drop(id: int)

  ghost function Play(w: World, a: Whole): World {
    match a
    case Call(c, req, env) => if c in w.calls then w else Completed(w, c, req, env)
    case Pause(dt) => Next(w, Tick(dt))
    case Drop(id) => Next(w, Expel(id))
  }

  ghost function PlayAll(w: World, run: seq<Whole>): World {
    if run == [] then w else Play(PlayAll(w, run[..|run| - 1]), run[|run| - 1])
  }

  /** A whole call is a run of the machine. */
  lemma PlayIsRun(w: World, a: Whole) returns (steps: seq<Step>)
    ensures Play(w, a) == Run(w, steps)
  {
    match a {
      case Call(c, req, env) =>
        if c in w.calls {
          steps := [];
        } else {
          steps := Script(c, req, env, LONGEST);
          ScriptRuns(w, c, req, env, LONGEST);
        }
      case Pause(dt) =>
        steps := RunOne(w, Tick(dt));
      case Drop(id) =>
        steps := RunOne(w, Expel(id));
    }
  }

  lemma RunOne(w: World, s: Step) returns (steps: seq<Step>)
    ensures Run(w, steps) == Next(w, s)
  {
    steps := [s];
    assert steps[..0] == [];
    RunLast(w, steps);
  }

  /** Every run of whole calls is one of the interleaved runs. */
  lemma {:induction false} WholeRunsAreRuns(cfg: Config, run: seq<Whole>) returns (steps: seq<Step>)
    ensures PlayAll(Init(cfg), run) == Run(Init(cfg), steps)
  {
    if run == [] {
      steps := [];
    } else {
      var before := WholeRunsAreRuns(cfg, run[..|run| - 1]);
      var last := PlayIsRun(PlayAll(Init(cfg), run[..|run| - 1]), run[|run| - 1]);
      steps := before + last;
      RunConcat(Init(cfg), before, last);
    }
  }

  /** How many accesses a call has left, at most. */
  function Remaining(pc: Pc): nat {
    match pc
    case RefreshLookup => 8
    case RefreshCheck(_) => 7
    case RefreshRevoke(_) => 6
    case RefreshEvict(_) => 5
    case MakeToken(_, _, _) => 4
    case MakeExpiry(_, _, _, _) => 3
    case Insert(_, _, _, _, _) => 2
    case MakeAccess(_, _, _, _, _) => 1
    case LogoutLookup => 3
    case LogoutEvict(_) => 2
    case LogoutRevoke(_) => 1
    case CacheRead => 5
    case TableRead => 4
    case CacheTtl(_, _) => 3
    case CacheWrite(_, _, _) => 2
    case Check(_, _) => 1
    case Done(_) => 0
  }

  lemma DecideShortens(cfg: Config, st: State, call: AuthMachine.Call, ch: Choice)
    requires !call.pc.Done?
    ensures var m := Decide(cfg, st, call, ch);
            && Remaining(m.pc) < Remaining(call.pc)
            && (Undrawn(m.pc) ==> Undrawn(call.pc) && !m.effect.Draw?)
            && (Counted(m.pc) ==> Follows(call.pc, m.pc))
  {
  }

  /** The program counters a call can only reach after a fixed number of accesses. */
  predicate Counted(pc: Pc) {
    Rotating(pc) || LoggingOut(pc)
  }

  predicate Rotating(pc: Pc) {
    pc.RefreshLookup? || pc.RefreshCheck? || pc.RefreshRevoke? || pc.RefreshEvict?
  }

  predicate LoggingOut(pc: Pc) {
    pc.LogoutLookup? || pc.LogoutEvict? || pc.LogoutRevoke?
  }

  predicate Follows(pc: Pc, pc': Pc) {
    && Rotating(pc') == Rotating(pc) && LoggingOut(pc') == LoggingOut(pc)
    && Remaining(pc') == Remaining(pc) - 1
  }

  /** Logins and rotations draw a refresh token. */
  predicate Draws(req: Request) {
    req.LoginReq? || req.RefreshReq?
  }

  predicate Undrawn(pc: Pc) {
    pc.MakeToken? || pc.RefreshLookup? || pc.RefreshCheck? || pc.RefreshRevoke? || pc.RefreshEvict?
  }

  lemma GoShortens(w: World, c: int, ch: Choice)
    requires c in w.calls
    ensures var w' := Next(w, Go(c, ch));
            && c in w'.calls && w'.calls[c].req == w.calls[c].req
            && (Undrawn(w'.calls[c].pc) ==> Undrawn(w.calls[c].pc) && w'.st.drawn == w.st.drawn)
            && (Repeats(w.st, w.calls[c].pc, ch) || w'.calls[c].pc.Done?
                || Remaining(w'.calls[c].pc) < Remaining(w.calls[c].pc))
            && (Counted(w'.calls[c].pc) ==> Follows(w.calls[c].pc, w'.calls[c].pc))
  {
    if Enabled(w, Go(c, ch)) {
      var st := Elapse(w, ch.dt).st;
      DecideShortens(w.cfg, st, w.calls[c], ch);
      DrawnOnlyByDraw(st, c, Decide(w.cfg, st, w.calls[c], ch).effect);
    }
  }

  /** A call never makes more than `LONGEST` accesses. */
  lemma {:induction false} ProgressShortens(w: World, c: int, req: Request, env: Env, k: nat)
    requires Draws(req) ==> Novel(w, env)
    ensures var w' := Progress(w, c, req, env, k);
            && c in w'.calls && w'.calls[c].req == req
            && (Undrawn(w'.calls[c].pc) ==> w'.st.drawn == w.st.drawn && Draws(req))
            && (w'.calls[c].pc.Done? || Remaining(w'.calls[c].pc) + k <= LONGEST)
  {
    if k > 0 {
      ProgressShortens(w, c, req, env, k - 1);
      ProgressNext(w, c, req, env, k);
      GoShortens(Progress(w, c, req, env, k - 1), c, env(k - 1));
    }
  }

  lemma {:induction false} ProgressCounts(w: World, c: int, req: Request, env: Env, k: nat)
    ensures var w' := Progress(w, c, req, env, k);
            && c in w'.calls
            && (Counted(w'.calls[c].pc) ==>
                  && Remaining(w'.calls[c].pc) + k == Remaining(Entrypoint(req))
                  && Rotating(w'.calls[c].pc) == req.RefreshReq? && LoggingOut(w'.calls[c].pc) == req.LogoutReq?)
  {
    if k > 0 {
      ProgressCounts(w, c, req, env, k - 1);
      ProgressNext(w, c, req, env, k);
      GoShortens(Progress(w, c, req, env, k - 1), c, env(k - 1));
    }
  }

  lemma DrawnOnlyByDraw(st: State, c: int, e: Effect)
    ensures !e.Draw? ==> Apply(st, c, e).drawn == st.drawn
  {
  }

  lemma CallsFinish(w: World, c: int, req: Request, env: Env)
    requires Draws(req) ==> Novel(w, env)
    ensures c in Completed(w, c, req, env).calls && Completed(w, c, req, env).calls[c].pc.Done?
  {
    FinishesBy(w, c, req, env, LONGEST);
  }

  lemma FinishesBy(w: World, c: int, req: Request, env: Env, k: nat)
    requires (Draws(req) ==> Novel(w, env)) && k >= LONGEST
    ensures c in Progress(w, c, req, env, k).calls && Progress(w, c, req, env, k).calls[c].pc.Done?
  {
    ProgressShortens(w, c, req, env, k);
    assert forall pc: Pc :: Remaining(pc) == 0 ==> pc.Done?;
  }

  // ---- The cache agrees with the table ----

  ghost predicate Faithful(st: State, id: int) {
    id in st.cache && id in st.table && st.cache[id].session == Read(st.table, id)
  }

  /** Every cached session equals its row. */
  ghost predicate Coherent(st: State) {
    forall id :: id in st.cache ==> Faithful(st, id)
  }

  ghost predicate Current(st: State, s: Session) {
    s.id in st.table && s == Read(st.table, s.id)
  }

  /** The cache and the locals of a call that runs alone. */
  ghost predicate AloneInv(st: State, call: AuthMachine.Call) {
    match call.pc
    case RefreshEvict(s) => forall id :: id in st.cache && id != s.id ==> Faithful(st, id)
    case RefreshRevoke(s) => Coherent(st) && Current(st, s) && st.table[s.id].token == call.req.Bearer()
    case RefreshCheck(s) => Coherent(st) && Current(st, s) && st.table[s.id].token == call.req.Bearer()
    case LogoutEvict(s) => Coherent(st) && Current(st, s) && st.table[s.id].token == call.req.Bearer()
    case LogoutRevoke(s) =>
      Coherent(st) && Current(st, s) && st.table[s.id].token == call.req.Bearer() && s.id !in st.cache
    case CacheTtl(s, _) => Coherent(st) && Current(st, s) && s.id == call.req.Subject()
    case CacheWrite(s, _, _) => Coherent(st) && Current(st, s) && s.id == call.req.Subject()
    case Check(s, _) => Coherent(st) && Current(st, s) && s.id == call.req.Subject()
    case Done(Answer(active, id, _, at)) => Coherent(st) && Exact(st, active, id, at)
    case _ => Coherent(st)
  }

  /** What a validation without a cache would answer. */
  ghost predicate Exact(st: State, active: bool, id: int, at: int) {
    id in st.table && (active <==> st.table[id].status.Active? && at < st.table[id].refreshExpiresAt)
  }

  predicate Evicting(pc: Pc) {
    pc.LogoutEvict? || pc.RefreshEvict?
  }

  lemma AloneIssues(cfg: Config, st: State, c: int, call: AuthMachine.Call, ch: Choice)
    requires RowsInv(st) && Coherent(st) && Lineage.Issuing(call.pc)
    ensures var m := Decide(cfg, st, call, ch); AloneInv(Apply(st, c, m.effect), call.(pc := m.pc))
  {
  }

  lemma AloneRevokes(cfg: Config, st: State, c: int, call: AuthMachine.Call, ch: Choice)
    requires TokensUnique(st.table) && AloneInv(st, call) && (call.pc.RefreshRevoke? || call.pc.LogoutRevoke?)
    ensures var m := Decide(cfg, st, call, ch); AloneInv(Apply(st, c, m.effect), call.(pc := m.pc))
  {
  }

  lemma AloneMoves(cfg: Config, st: State, c: int, call: AuthMachine.Call, ch: Choice)
    requires RowsInv(st) && AloneInv(st, call) && !call.pc.Done?
    requires Evicting(call.pc) ==> ch.fault != Lost
    ensures var m := Decide(cfg, st, call, ch); AloneInv(Apply(st, c, m.effect), call.(pc := m.pc))
  {
    if Lineage.Issuing(call.pc) {
      AloneIssues(cfg, st, c, call, ch);
    } else if call.pc.RefreshRevoke? || call.pc.LogoutRevoke? {
      AloneRevokes(cfg, st, c, call, ch);
    } else {
      AloneReads(cfg, st, c, call, ch);
    }
  }

  lemma AloneReads(cfg: Config, st: State, c: int, call: AuthMachine.Call, ch: Choice)
    requires RowsInv(st) && AloneInv(st, call) && !call.pc.Done? && !Lineage.Issuing(call.pc)
    requires !call.pc.RefreshRevoke? && !call.pc.LogoutRevoke?
    requires Evicting(call.pc) ==> ch.fault != Lost
    ensures var m := Decide(cfg, st, call, ch); AloneInv(Apply(st, c, m.effect), call.(pc := m.pc))
  {
  }

  /** Which access of its call deletes the cached session, and which one revokes the row. */
  const LOGOUT_EVICTION: nat := 1
  const REFRESH_REVOCATION: nat := 2
  const REFRESH_EVICTION: nat := 3

  /** The environment of a whole call draws fresh values, and its cache deletion takes effect. */
  ghost predicate EvictionsWork(w: World, a: Whole) {
    a.Call? && a.c !in w.calls ==>
      (Draws(a.req) ==> Novel(w, a.env)) && Evicts(a.req, a.env)
  }

  lemma ElapseAlone(st: State, now: int, call: AuthMachine.Call)
    requires AloneInv(st, call)
    ensures AloneInv(st.(now := now), call)
  {
  }

  lemma BeginAlone(w: World, c: int, req: Request)
    requires Coherent(w.st)
    ensures AloneAt(Begin(w, c, req), c)
  {
  }

  lemma GoAlone(w: World, c: int, ch: Choice)
    requires Reachable(w) && AloneAt(w, c)
    requires Evicting(w.calls[c].pc) ==> ch.fault != Lost
    ensures AloneAt(Next(w, Go(c, ch)), c)
  {
    if Enabled(w, Go(c, ch)) {
      ReachableTable(w);
      var now := Elapse(w, ch.dt);
      ElapseAlone(w.st, now.st.now, w.calls[c]);
      AloneMoves(w.cfg, now.st, c, w.calls[c], ch);
    }
  }

  /** Deletions of this request take effect in this environment. */
  predicate Evicts(req: Request, env: Env) {
    && (req.LogoutReq? ==> env(LOGOUT_EVICTION).fault != Lost)
    && (req.RefreshReq? ==> env(REFRESH_EVICTION).fault != Lost)
  }

  /** Call `c` is alone in `w`. */
  ghost predicate AloneAt(w: World, c: int) {
    c in w.calls && AloneInv(w.st, w.calls[c])
  }

  lemma EvictionNumber(w: World, c: int, req: Request, env: Env, k: nat)
    requires Evicts(req, env)
    ensures var v := Progress(w, c, req, env, k);
            c in v.calls && (Evicting(v.calls[c].pc) ==> env(k).fault != Lost)
  {
    ProgressCounts(w, c, req, env, k);
  }

  lemma {:induction false} ProgressAlone(w: World, c: int, req: Request, env: Env, k: nat)
    requires Reachable(w) && c !in w.calls && Evicts(req, env) && AloneAt(Begin(w, c, req), c)
    ensures AloneAt(Progress(w, c, req, env, k), c)
  {
    if k > 0 {
      ProgressAlone(w, c, req, env, k - 1);
      ProgressReachable(w, c, req, env, k - 1);
      EvictionNumber(w, c, req, env, k - 1);
      ProgressNext(w, c, req, env, k);
      GoAlone(Progress(w, c, req, env, k - 1), c, env(k - 1));
    }
  }

  ghost predicate AllEvictionsWork(w: World, run: seq<Whole>) {
    run != [] ==>
      AllEvictionsWork(w, run[..|run| - 1]) && EvictionsWork(PlayAll(w, run[..|run| - 1]), run[|run| - 1])
  }

  lemma {:induction false} PlayCoherent(cfg: Config, run: seq<Whole>)
    requires AllEvictionsWork(Init(cfg), run)
    ensures Reachable(PlayAll(Init(cfg), run)) && Coherent(PlayAll(Init(cfg), run).st)
  {
    PlayReachable(cfg, run);
    if run != [] {
      var before := run[..|run| - 1];
      PlayCoherent(cfg, before);
      OneCoherent(PlayAll(Init(cfg), before), run[|run| - 1]);
    }
  }

  lemma PlayReachable(cfg: Config, run: seq<Whole>)
    ensures Reachable(PlayAll(Init(cfg), run))
  {
    var steps := WholeRunsAreRuns(cfg, run);
    RunCfg(Init(cfg), steps);
  }

  lemma {:induction false} RunCfg(w: World, steps: seq<Step>)
    ensures Run(w, steps).cfg == w.cfg
  {
    if steps != [] {
      RunCfg(w, steps[..|steps| - 1]);
      RunLast(w, steps);
    }
  }

  lemma OneCoherent(w: World, a: Whole)
    requires Reachable(w) && Coherent(w.st) && EvictionsWork(w, a)
    ensures Coherent(Play(w, a).st)
  {
    match a
    case Call(c, req, env) => if c !in w.calls { CallCoherent(w, c, req, env); }
    case Pause(dt) => assert Next(w, Tick(dt)).st.cache == w.st.cache;
    case Drop(id) => assert forall i :: i in Next(w, Expel(id)).st.cache ==> Faithful(w.st, i);
  }

  lemma CallCoherent(w: World, c: int, req: Request, env: Env)
    requires Reachable(w) && Coherent(w.st) && c !in w.calls && Evicts(req, env) && (Draws(req) ==> Novel(w, env))
    ensures var w' := Completed(w, c, req, env);
            c in w'.calls && w'.calls[c].pc.Done? && AloneInv(w'.st, w'.calls[c]) && Coherent(w'.st)
  {
    BeginAlone(w, c, req);
    ProgressAlone(w, c, req, env, LONGEST);
    CallsFinish(w, c, req, env);
  }

  /** With whole calls and effective deletions, whatever else fails: every cached session equals its
      row, and a validation answers what it would answer without a cache. */
  lemma CachedAnswersAreExact(cfg: Config, run: seq<Whole>, c: int, id: int, env: Env)
    requires AllEvictionsWork(Init(cfg), run)
    ensures var w := PlayAll(Init(cfg), run);
            && Coherent(w.st)
            && (c !in w.calls ==>
                  var w' := Completed(w, c, ValidateReq(id), env);
                  && c in w'.calls && w'.calls[c].pc.Done?
                  && w'.st.table == w.st.table
                  && Verdict(w.st.table, id, w'.calls[c].pc.outcome)
                  && (w'.calls[c].pc.outcome.Answer? ==>
                        Exact(w.st, w'.calls[c].pc.outcome.active, id, w'.calls[c].pc.outcome.at)))
  {
    PlayCoherent(cfg, run);
    var w := PlayAll(Init(cfg), run);
    if c !in w.calls {
      CallCoherent(w, c, ValidateReq(id), env);
      ValidationRuns(w, c, id, env, LONGEST);
    }
  }

  predicate Validating(pc: Pc) {
    pc.CacheRead? || pc.TableRead? || pc.CacheTtl? || pc.CacheWrite? || pc.Check? || pc.Done?
  }

  lemma {:induction false} ValidationRuns(w: World, c: int, id: int, env: Env, k: nat)
    ensures var w' := Progress(w, c, ValidateReq(id), env, k);
            && w'.st.table == w.st.table
            && c in w'.calls && w'.calls[c].req == ValidateReq(id) && Validating(w'.calls[c].pc)
            && (w'.calls[c].pc.Done? ==> Verdict(w.st.table, id, w'.calls[c].pc.outcome))
  {
    if k > 0 {
      ValidationRuns(w, c, id, env, k - 1);
      ProgressNext(w, c, ValidateReq(id), env, k);
      GoValidates(Progress(w, c, ValidateReq(id), env, k - 1), c, env(k - 1));
    }
  }

  lemma ValidationMoves(cfg: Config, st: State, c: int, call: AuthMachine.Call, ch: Choice)
    requires Validating(call.pc) && call.req.ValidateReq? && !call.pc.Done?
    ensures var m := Decide(cfg, st, call, ch);
            && Validating(m.pc) && Apply(st, c, m.effect).table == st.table
            && (m.pc.Done? ==> Verdict(st.table, call.req.id, m.pc.outcome))
  {
  }

  /** A validation answers about the session it was asked for, or reports why it cannot. */
  predicate Verdict(t: Table, id: int, o: Outcome) {
    match o
    case Answer(_, id', _, _) => id' == id
    case Failed(e) => e == Unavailable || (e == NotFound && id !in t)
    case _ => false
  }

  lemma GoValidates(w: World, c: int, ch: Choice)
    requires c in w.calls && w.calls[c].req.ValidateReq? && Validating(w.calls[c].pc)
    requires w.calls[c].pc.Done? ==> Verdict(w.st.table, w.calls[c].req.id, w.calls[c].pc.outcome)
    ensures var w' := Next(w, Go(c, ch));
            && c in w'.calls && w'.calls[c].req == w.calls[c].req && Validating(w'.calls[c].pc)
            && w'.st.table == w.st.table
            && (w'.calls[c].pc.Done? ==> Verdict(w.st.table, w.calls[c].req.id, w'.calls[c].pc.outcome))
  {
    if Enabled(w, Go(c, ch)) {
      ValidationMoves(w.cfg, Elapse(w, ch.dt).st, c, w.calls[c], ch);
    }
  }

  // ---- What a lost deletion costs ----

  /** The row a logout of `token` would strand in the cache. */
  ghost predicate Exposed(st: State, token: Token) {
    exists id :: id in st.cache && id in st.table && st.table[id].token == token && st.table[id].status.Active?
  }

  /** A logout breaks the agreement of cache and table exactly when its lookup works, its deletion is
      lost, its update is not, and the session is active and cached. */
  lemma LogoutCoherentIff(w: World, c: int, token: Token, env: Env)
    requires TableInv(w) && Coherent(w.st)
    ensures Coherent(Completed(w, c, LogoutReq(token), env).st) <==>
              !(env(0).fault == Fine && env(LOGOUT_EVICTION).fault == Lost && env(2).fault != Lost
                && Exposed(w.st, token))
  {
    var req := LogoutReq(token);
    var w1 := Progress(w, c, req, env, 1);
    ProgressNext(w, c, req, env, 1);
    assert w1 == Next(Begin(w, c, req), Go(c, env(0)));
    assert w1.st.cache == w.st.cache && w1.st.table == w.st.table && w1.calls[c].req == req;
    if w1.calls[c].pc.Done? {
      DoneStays(w, c, req, env, 1, LONGEST);
      assert Coherent(w1.st);
    } else {
      LogoutTail(w, c, token, env, w1);
    }
  }

  lemma LogoutEvicts(w: World, c: int, ch: Choice)
    requires c in w.calls && w.calls[c].pc.LogoutEvict?
    ensures var w' := Next(w, Go(c, ch));
            && w'.st.table == w.st.table
            && w'.st.cache == (if ch.fault == Lost then w.st.cache else w.st.cache - {w.calls[c].pc.session.id})
            && c in w'.calls && w'.calls[c].req == w.calls[c].req && w'.calls[c].pc.LogoutRevoke?
  {
  }

  lemma LogoutRevokes(w: World, c: int, ch: Choice)
    requires c in w.calls && w.calls[c].pc.LogoutRevoke?
    ensures var w' := Next(w, Go(c, ch));
            && w'.st.cache == w.st.cache
            && w'.st.table == (if ch.fault == Lost then w.st.table
                               else Revoke(w.st.table, w.calls[c].req.Bearer(), w'.st.now))
            && c in w'.calls && w'.calls[c].pc.Done?
  {
  }

  lemma LogoutTail(w: World, c: int, token: Token, env: Env, w1: World)
    requires TableInv(w) && Coherent(w.st)
    requires w1 == Progress(w, c, LogoutReq(token), env, 1) && w1.st.cache == w.st.cache && w1.st.table == w.st.table
    requires c in w1.calls && w1.calls[c].pc.LogoutEvict? && w1.calls[c].req == LogoutReq(token)
    requires var s := w1.calls[c].pc.session; s.id in w.st.table && w.st.table[s.id].token == token
    ensures Coherent(Completed(w, c, LogoutReq(token), env).st) <==>
              !(env(1).fault == Lost && env(2).fault != Lost && Exposed(w.st, token))
  {
    var req := LogoutReq(token);
    var id := w1.calls[c].pc.session.id;
    var w2 := Progress(w, c, req, env, 2);
    ProgressNext(w, c, req, env, 2);
    LogoutEvicts(w1, c, env(1));
    assert w2.st.cache == if env(1).fault == Lost then w.st.cache else w.st.cache - {id};
    var w3 := Progress(w, c, req, env, 3);
    ProgressNext(w, c, req, env, 3);
    LogoutRevokes(w2, c, env(2));
    assert w3.st.table == if env(2).fault == Lost then w.st.table else Revoke(w.st.table, token, w3.st.now);
    DoneStays(w, c, req, env, 3, LONGEST);
    assert Exposed(w.st, token) <==> id in w.st.cache && w.st.table[id].status.Active?;
    if env(1).fault == Lost && env(2).fault != Lost && Exposed(w.st, token) {
      assert !Faithful(w3.st, id);
    } else {
      forall i | i in w3.st.cache
        ensures Faithful(w3.st, i)
      {
        assert Faithful(w.st, i);
      }
    }
  }
}
