/** How long after its revocation a session can still be answered `true`: the bound of `AuthValidity`,
    together with the lifetime of a token, is exact. */
module AuthRaces {
  import opened Common
  import opened SessionTable
  import opened SessionCache
  import opened AuthMachine
  import opened AuthTable
  import opened AuthValidity
  import Expiry = AuthExpiry

  function Choose(token: Token): Choice {
    Choice(0, Fine, token, 0)
  }

  /** A step in which no time passes. */
  predicate Instant(s: Step) {
    match s
    case Tick(dt) => dt == 0
    case Go(_, ch) => ch.dt == 0
    case _ => true
  }

  /** `run'` is `run` and further steps in which no time passes. */
  predicate Instantly(run: seq<Step>, run': seq<Step>) {
    run <= run' && forall i :: |run| <= i < |run'| ==> Instant(run'[i])
  }

  lemma Extend(w0: World, run: seq<Step>, s: Step) returns (longer: seq<Step>, w: World)
    ensures longer == run + [s] && w == Run(w0, longer) && w == Next(Run(w0, run), s)
  {
    longer := run + [s];
    assert longer[..|longer| - 1] == run;
    RunLast(w0, longer);
    w := Run(w0, longer);
  }

  lemma InstantPrompt(w: World, s: Step, D: nat)
    requires Prompt(w, D) && Instant(s)
    ensures Prompt(Next(w, s), D)
  {
    if s.Go? && Enabled(w, s) {
      InstantGo(w, s.c, s.choice);
      NowStays(w.st, s.c, Decide(w.cfg, w.st, w.calls[s.c], s.choice).effect);
    }
  }

  lemma InstantGo(w: World, c: int, ch: Choice)
    requires Enabled(w, Go(c, ch)) && ch.dt == 0
    ensures Next(w, Go(c, ch)) == Act(w, c, ch)
  {
    assert Elapse(w, 0) == w;
  }

  /** Steps without time keep a run prompt. */
  lemma {:induction false} StaysPrompt(w0: World, run: seq<Step>, run': seq<Step>, D: nat)
    requires PromptRun(w0, run, D) && Instantly(run, run')
    ensures PromptRun(w0, run', D)
    decreases |run'|
  {
    if |run'| == |run| {
      assert run' == run;
    } else {
      var before := run'[..|run'| - 1];
      StaysPrompt(w0, run, before, D);
      RunLast(w0, run');
      InstantPrompt(Run(w0, before), run'[|run'| - 1], D);
    }
  }

  /** The issue of a pair, in which nothing fails. */
  lemma IssueMoves(w0: World, run: seq<Step>, w: World, c: int, novel: Token) returns (run': seq<Step>, w': World)
    requires w == Run(w0, run) && c in w.calls && w.calls[c].pc.MakeToken? && novel !in w.st.drawn
    ensures Instantly(run, run') && w' == Run(w0, run') && w'.cfg == w.cfg
    ensures var id, pc := w.st.nextId, w.calls[c].pc;
            && w'.st.now == w.st.now && w'.st.cache == w.st.cache && w'.st.nextId == id + 1
            && w'.st.stamps == w.st.stamps && w'.st.drawn == w.st.drawn + {novel}
            && w'.st.table == w.st.table[id := Row(pc.userId, pc.appId, novel, w.st.now + w.cfg.refreshTtl,
                                                   Active, w.st.now)]
    ensures c in w'.calls && w'.calls == w.calls[c := w'.calls[c]] && w'.calls[c].req == w.calls[c].req
    ensures w'.calls[c].pc.Done? && w'.calls[c].pc.outcome.Issued?
  {
    var x, pc := Choose(novel), w.calls[c].pc;
    run', w' := Extend(w0, run, Go(c, x));
    assert w'.calls[c].pc == MakeExpiry(pc.userId, pc.appId, pc.from, novel);
    run', w' := Extend(w0, run', Go(c, x));
    assert w'.calls[c].pc == Insert(pc.userId, pc.appId, pc.from, novel, w.st.now + w.cfg.refreshTtl);
    run', w' := InsertMoves(w0, run', w', c);
  }

  lemma InsertMoves(w0: World, run: seq<Step>, w: World, c: int) returns (run': seq<Step>, w': World)
    requires w == Run(w0, run) && c in w.calls && w.calls[c].pc.Insert?
    ensures Instantly(run, run') && w' == Run(w0, run') && w'.cfg == w.cfg
    ensures var id, pc := w.st.nextId, w.calls[c].pc;
            && w'.st.now == w.st.now && w'.st.cache == w.st.cache && w'.st.nextId == id + 1
            && w'.st.stamps == w.st.stamps && w'.st.drawn == w.st.drawn
            && w'.st.table == w.st.table[id := Row(pc.userId, pc.appId, pc.token, pc.expiry, Active, w.st.now)]
    ensures c in w'.calls && w'.calls == w.calls[c := w'.calls[c]] && w'.calls[c].req == w.calls[c].req
    ensures w'.calls[c].pc.Done? && w'.calls[c].pc.outcome.Issued?
  {
    InstantGo(w, c, Choose(""));
    run', w' := Extend(w0, run, Go(c, Choose("")));
    assert w'.calls[c].pc.MakeAccess?;
    InstantGo(w', c, Choose(""));
    run', w' := Extend(w0, run', Go(c, Choose("")));
  }

  lemma LoginMoves(w0: World, run: seq<Step>, w: World, c: int, user: int, app: int, token: Token)
    returns (run': seq<Step>, w': World)
    requires w == Run(w0, run) && c !in w.calls && token !in w.st.drawn
    ensures Instantly(run, run') && w' == Run(w0, run') && w'.cfg == w.cfg
    ensures var id := w.st.nextId;
            && w'.st.now == w.st.now && w'.st.cache == w.st.cache && w'.st.nextId == id + 1
            && w'.st.stamps == w.st.stamps && w'.st.drawn == w.st.drawn + {token}
            && w'.st.table == w.st.table[id := Row(user, app, token, w.st.now + w.cfg.refreshTtl, Active, w.st.now)]
            && w'.calls.Keys == w.calls.Keys + {c} && w'.calls[c].pc.Done?
            && forall d :: d in w.calls ==> w'.calls[d] == w.calls[d]
  {
    run', w' := Extend(w0, run, Start(c, LoginReq(user, app)));
    run', w' := IssueMoves(w0, run', w', c, token);
  }

  /** A validation that misses the cache, up to the point where it holds its copy. */
  lemma ReadMoves(w0: World, run: seq<Step>, w: World, c: int, id: int) returns (run': seq<Step>, w': World)
    requires w == Run(w0, run) && c !in w.calls && id in w.st.table && id !in w.st.cache
    ensures Instantly(run, run') && w' == Run(w0, run') && w'.cfg == w.cfg && w'.st == w.st
    ensures w'.calls == w.calls[c := Call(ValidateReq(id), w.st.now, CacheTtl(Read(w.st.table, id), w.st.now))]
  {
    run', w' := Extend(w0, run, Start(c, ValidateReq(id)));
    run', w' := Extend(w0, run', Go(c, Choose("")));
    assert w'.calls[c].pc == TableRead;
    run', w' := Extend(w0, run', Go(c, Choose("")));
  }

  /** A whole logout in which nothing fails. */
  lemma LogoutMoves(w0: World, run: seq<Step>, w: World, c: int, token: Token, id: int)
    returns (run': seq<Step>, w': World)
    requires w == Run(w0, run) && c !in w.calls && TokensUnique(w.st.table)
    requires id in w.st.table && w.st.table[id].token == token && w.st.table[id].status.Active?
    ensures Instantly(run, run') && w' == Run(w0, run') && w'.cfg == w.cfg
    ensures w'.st.now == w.st.now && w'.st.cache == w.st.cache - {id}
    ensures w'.st.table == w.st.table[id := w.st.table[id].(status := Revoked, updatedAt := w.st.now)]
    ensures w'.calls == w.calls[c := Call(LogoutReq(token), w.st.now, Done(LoggedOut(true)))]
  {
    run', w' := Extend(w0, run, Start(c, LogoutReq(token)));
    run', w' := Extend(w0, run', Go(c, Choose("")));
    assert w'.calls[c].pc == LogoutEvict(Read(w.st.table, id));
    run', w' := Extend(w0, run', Go(c, Choose("")));
    run', w' := RevokeMoves(w0, run', w', c, token, id);
  }

  lemma RevokeMoves(w0: World, run: seq<Step>, w: World, c: int, token: Token, id: int)
    returns (run': seq<Step>, w': World)
    requires w == Run(w0, run) && c in w.calls && w.calls[c].req == LogoutReq(token) && w.calls[c].pc.LogoutRevoke?
    requires TokensUnique(w.st.table)
    requires id in w.st.table && w.st.table[id].token == token && w.st.table[id].status.Active?
    ensures Instantly(run, run') && w' == Run(w0, run') && w'.cfg == w.cfg
    ensures w'.st.now == w.st.now && w'.st.cache == w.st.cache
    ensures w'.st.table == w.st.table[id := w.st.table[id].(status := Revoked, updatedAt := w.st.now)]
    ensures w'.calls == w.calls[c := w.calls[c].(pc := Done(LoggedOut(true)))]
  {
    RevokeOne(w.st.table, token, w.st.now, id);
    InstantGo(w, c, Choose(""));
    RevokeDecided(w.cfg, w.st, w.calls[c], id);
    run', w' := Extend(w0, run, Go(c, Choose("")));
  }

  lemma RevokeDecided(cfg: Config, st: State, call: Call, id: int)
    requires call.pc.LogoutRevoke? && id in st.table && st.table[id].token == call.req.Bearer()
    requires st.table[id].status.Active?
    ensures Decide(cfg, st, call, Choose("")) == Move(RevokeToken(call.req.Bearer()), Done(LoggedOut(true)))
  {
    assert id in Flips(st.table, call.req.Bearer());
  }

  /** A validation judges the copy it has. */
  lemma JudgeMoves(w0: World, run: seq<Step>, w: World, c: int) returns (run': seq<Step>, w': World)
    requires w == Run(w0, run) && c in w.calls && w.calls[c].pc.Check?
    ensures Instantly(run, run') && w' == Run(w0, run') && w'.st == w.st && w'.cfg == w.cfg
    ensures var s, call := w.calls[c].pc.session, w.calls[c];
            w'.calls == w.calls[c := call.(pc := Done(
              Answer(s.status == Active && w.st.now < s.refreshExpiresAt, call.req.Subject(), call.pc.source, w.st.now)))]
  {
    run', w' := Extend(w0, run, Go(c, Choose("")));
  }

  /** The rest of a validation that holds its copy: it stores it and judges it. */
  lemma StoreMoves(w0: World, run: seq<Step>, w: World, c: int) returns (run': seq<Step>, w': World)
    requires w == Run(w0, run) && c in w.calls && w.calls[c].pc.CacheTtl?
    ensures Instantly(run, run')
    ensures var s, id := w.calls[c].pc.session, w.calls[c].req.Subject();
            && w' == Run(w0, run') && w'.cfg == w.cfg && w'.st.now == w.st.now && w'.st.table == w.st.table
            && w'.st.cache == w.st.cache[id := Entry(s, w.st.now + Ttl(s.refreshExpiresAt, w.st.now))]
            && w'.calls.Keys == w.calls.Keys && w'.calls[c].pc.Done?
            && (forall d :: d in w.calls && d != c ==> w'.calls[d] == w.calls[d])
  {
    var call := w.calls[c];
    var ttl := Ttl(call.pc.session.refreshExpiresAt, w.st.now);
    run', w' := Extend(w0, run, Go(c, Choose("")));
    assert w'.st == w.st && w'.calls == w.calls[c := call.(pc := CacheWrite(call.pc.session, call.pc.readAt, ttl))];
    run', w' := WriteMoves(w0, run', w', c);
    run', w' := JudgeMoves(w0, run', w', c);
  }

  lemma WriteMoves(w0: World, run: seq<Step>, w: World, c: int) returns (run': seq<Step>, w': World)
    requires w == Run(w0, run) && c in w.calls && w.calls[c].pc.CacheWrite?
    ensures Instantly(run, run') && w' == Run(w0, run') && w'.cfg == w.cfg
    ensures w'.st.now == w.st.now && w'.st.table == w.st.table
    ensures var pc, id := w.calls[c].pc, w.calls[c].req.Subject();
            && w'.st.cache == w.st.cache[id := Entry(pc.session, w.st.now + pc.ttl)]
            && w'.calls == w.calls[c := w.calls[c].(pc := Check(pc.session, FromTable(pc.readAt)))]
  {
    InstantGo(w, c, Choose(""));
    WriteIs(w, c);
    run', w' := Extend(w0, run, Go(c, Choose("")));
  }

  lemma WriteIs(w: World, c: int)
    requires c in w.calls && w.calls[c].pc.CacheWrite?
    ensures var w', pc := Act(w, c, Choose("")), w.calls[c].pc;
            && w'.cfg == w.cfg && w'.st.now == w.st.now && w'.st.table == w.st.table
            && w'.st.cache == w.st.cache[w.calls[c].req.Subject() := Entry(pc.session, w.st.now + pc.ttl)]
            && w'.calls == w.calls[c := w.calls[c].(pc := Check(pc.session, FromTable(pc.readAt)))]
  {
    WriteDecided(w.cfg, w.st, w.calls[c]);
  }

  lemma WriteDecided(cfg: Config, st: State, call: Call)
    requires call.pc.CacheWrite?
    ensures Decide(cfg, st, call, Choose(""))
         == Move(Store(call.req.Subject(), call.pc.session, call.pc.ttl, call.pc.readAt),
                 Check(call.pc.session, FromTable(call.pc.readAt)))
  {
  }

  /** A validation answered from the cache. */
  lemma HitMoves(w0: World, run: seq<Step>, w: World, c: int, id: int) returns (run': seq<Step>, w': World)
    requires w == Run(w0, run) && c !in w.calls && Visible(w.st.cache, id, w.st.now)
    ensures Instantly(run, run') && w' == Run(w0, run') && w'.st == w.st && c in w'.calls
    ensures (forall d :: d in w.calls ==> d in w'.calls && w'.calls[d] == w.calls[d])
    ensures var s, call := w.st.cache[id].session, w'.calls[c];
            && call.startedAt == w.st.now && call.pc.Done? && call.pc.outcome.Answer? && call.pc.outcome.id == id
            && call.pc.outcome.active == (s.status.Active? && w.st.now < s.refreshExpiresAt)
  {
    run', w' := Extend(w0, run, Start(c, ValidateReq(id)));
    run', w' := Extend(w0, run', Go(c, Choose("")));
    assert w'.calls[c].pc.Check? && w'.calls[c].pc.session == w.st.cache[id].session;
    run', w' := JudgeMoves(w0, run', w', c);
  }

  /** Calls last at most `D`, and call `c` answers `true` about a session that was revoked `delay`
      before the call began. */
  ghost predicate AnsweredLate(cfg: Config, run: seq<Step>, D: nat, c: int, delay: nat) {
    && PromptRun(Init(cfg), run, D)
    && var w := Run(Init(cfg), run);
       && c in w.calls && w.calls[c].pc.Done? && w.calls[c].pc.outcome.Answer? && w.calls[c].pc.outcome.active
       && var id := w.calls[c].pc.outcome.id;
          && id in w.st.table && w.st.table[id].status.Revoked?
          && w.calls[c].startedAt == w.st.table[id].updatedAt + delay
  }

  /** Login, a validation that has read the row, and a logout, all at time 0. */
  lemma CopyIsHeld(cfg: Config, D: nat) returns (run: seq<Step>, w: World)
    requires 0 < cfg.refreshTtl
    ensures PromptRun(Init(cfg), run, D) && w == Run(Init(cfg), run) && w.cfg == cfg
    ensures w.st.now == 0 && w.st.cache == map[] && w.calls.Keys == {1, 2, 3}
    ensures 1 in w.st.table && w.st.table[1] == Row(7, 1, "a", cfg.refreshTtl, Revoked, 0)
    ensures w.calls[1].pc.Done? && w.calls[3].pc == Done(LoggedOut(true))
    ensures w.calls[2] == Call(ValidateReq(1), 0, CacheTtl(Session(1, 7, 1, cfg.refreshTtl, Active), 0))
  {
    var w0 := Init(cfg);
    assert PromptRun(w0, [], D);
    var run1, w1 := LoginMoves(w0, [], w0, 1, 7, 1, "a");
    StaysPrompt(w0, [], run1, D);
    var run2, w2 := ReadMoves(w0, run1, w1, 2, 1);
    StaysPrompt(w0, run1, run2, D);
    run, w := LogoutMoves(w0, run2, w2, 3, "a", 1);
    StaysPrompt(w0, run2, run, D);
  }

  lemma TickPrompt(w0: World, run: seq<Step>, dt: nat, D: nat) returns (run': seq<Step>, w': World)
    requires PromptRun(w0, run, D) && Prompt(Elapse(Run(w0, run), dt), D)
    ensures PromptRun(w0, run', D) && w' == Run(w0, run') && w' == Elapse(Run(w0, run), dt)
  {
    run', w' := Extend(w0, run, Tick(dt));
    assert run'[..|run'| - 1] == run;
  }

  /** Nothing fails, and a logout returns `true`. The reader stalls as long as it may before it stores its
      copy. */
  lemma LateAnswer(cfg: Config, D: nat, delay: nat) returns (run: seq<Step>)
    requires delay < D + DAY && delay < cfg.refreshTtl
    ensures AnsweredLate(cfg, run, D, 4, delay)
    ensures var w := Run(Init(cfg), run); 3 in w.calls && w.calls[3].pc == Done(LoggedOut(true))
  {
    var w0 := Init(cfg);
    var stall: nat := if D < delay then D else delay;
    var run1, w1 := CopyIsHeld(cfg, D);
    var run2, w2 := TickPrompt(w0, run1, stall, D);
    var run3, w3 := StoreMoves(w0, run2, w2, 2);
    StaysPrompt(w0, run2, run3, D);
    assert forall d :: d in w3.calls ==> w3.calls[d].pc.Done?;
    var run4, w4 := TickPrompt(w0, run3, delay - stall, D);
    var w;
    run, w := HitMoves(w0, run4, w4, 4, 1);
    StaysPrompt(w0, run4, run, D);
  }

  /** If calls last at most `D`, then a session revoked at time `r` can be answered `true` by a call that
      begins at `r + delay` exactly for the delays below `D` and a day and below a token's lifetime. */
  lemma LateAnswersIff(cfg: Config, D: nat, delay: nat)
    ensures (exists run, c :: AnsweredLate(cfg, run, D, c, delay)) <==> delay < D + DAY && delay < cfg.refreshTtl
  {
    if run, c :| AnsweredLate(cfg, run, D, c, delay) {
      RevocationBites(cfg, run, D, c);
      AnswersAreJustified(cfg, run, c);
      Expiry.RunKeeps(Init(cfg), run);
    }
    if delay < D + DAY && delay < cfg.refreshTtl {
      var run := LateAnswer(cfg, D, delay);
    }
  }
}
