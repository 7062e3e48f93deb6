/** Which rotations of one token can still succeed, and when two of them can. */
module AuthReuse {
  import opened Common
  import opened SessionTable
  import opened AuthMachine
  import opened AuthTable
  import opened AuthCalls
  import opened AuthAtomic
  import opened AuthChains
  import opened AuthRaces
  import opened AuthWholeRotation
  import Lineage = AuthLineage

  predicate Valid(s: Session, now: int) {
    s.status.Active? && now <= s.refreshExpiresAt
  }

  /** The rotation has passed the check and has not failed, or is about to pass it. */
  predicate Able(pc: Pc, now: int) {
    match pc
    case RefreshCheck(s) => Valid(s, now)
    case RefreshRevoke(_) => true
    case RefreshEvict(_) => true
    case Done(Issued(_)) => true
    case _ => Lineage.Issuing(pc)
  }

  ghost predicate AbleCall(w: World, c: int, token: Token) {
    c in w.calls && w.calls[c].req == RefreshReq(token) && Able(w.calls[c].pc, w.st.now)
  }

  /** A rotation that looks the row up now passes the check. */
  predicate Usable(st: State, p: int) {
    p in st.table && Valid(Read(st.table, p), st.now)
  }

  // ---- Able rotations can all succeed ----

  lemma {:induction false} LongerThanAll(tokens: set<Token>) returns (n: nat)
    ensures forall t :: t in tokens ==> |t| < n
  {
    if t :| t in tokens {
      n := LongerThanAll(tokens - {t});
      n := if |t| < n then n else |t| + 1;
    } else {
      n := 0;
    }
  }

  lemma Unused(tokens: set<Token>) returns (t: Token)
    ensures t !in tokens
  {
    var n := LongerThanAll(tokens);
    t := seq(n, _ => 'a');
  }

  lemma {:induction false} AboveAll(ids: set<int>) returns (n: int)
    ensures forall id :: id in ids ==> id < n
  {
    if id :| id in ids {
      var m := AboveAll(ids - {id});
      n := if id < m then m else id + 1;
      forall x | x in ids
        ensures x < n
      {
        assert x == id || x in ids - {id};
      }
    } else {
      n := 0;
    }
  }

  /** An access at once that does not fail brings an able rotation closer to its end. */
  lemma AbleMoves(cfg: Config, st: State, call: AuthMachine.Call, ch: Choice)
    requires Able(call.pc, st.now) && !call.pc.Done? && ch.fault == Fine
    ensures var m := Decide(cfg, st, call, ch); Able(m.pc, st.now) && Remaining(m.pc) < Remaining(call.pc)
  {
  }

  lemma AbleStep(w: World, c: int, token: Token, ch: Choice)
    requires AbleCall(w, c, token) && !w.calls[c].pc.Done? && ch.fault == Fine && ch.dt == 0
    requires !Repeats(w.st, w.calls[c].pc, ch)
    ensures var w' := Next(w, Go(c, ch));
            && w'.st.now == w.st.now && AbleCall(w', c, token) && Remaining(w'.calls[c].pc) < Remaining(w.calls[c].pc)
            && w'.calls == w.calls[c := w'.calls[c]]
  {
    assert Elapse(w, 0) == w;
    AbleMoves(w.cfg, w.st, w.calls[c], ch);
    NowStays(w.st, c, Decide(w.cfg, w.st, w.calls[c], ch).effect);
  }

  lemma {:induction false} FinishOne(w: World, c: int, token: Token) returns (more: seq<Step>)
    requires AbleCall(w, c, token)
    ensures var w' := Run(w, more);
            Rotated(w', c, token) && w'.st.now == w.st.now && w'.calls == w.calls[c := w'.calls[c]]
    decreases Remaining(w.calls[c].pc)
  {
    if w.calls[c].pc.Done? {
      more := [];
      assert w.calls[c := w.calls[c]] == w.calls;
    } else {
      var novel := Unused(w.st.drawn);
      var s := Go(c, Choice(0, Fine, novel, 0));
      AbleStep(w, c, token, s.choice);
      var rest := FinishOne(Next(w, s), c, token);
      more := [s] + rest;
      RunOneMore(w, s, rest);
    }
  }

  lemma RunOneMore(w: World, s: Step, rest: seq<Step>)
    ensures Run(w, [s] + rest) == Run(Next(w, s), rest)
  {
    RunConcat(w, [s], rest);
    RunLast(w, [s]);
    assert [s][..0] == [];
  }

  lemma {:induction false} FinishAll(w: World, able: set<int>, token: Token) returns (more: seq<Step>)
    requires forall c :: c in able ==> AbleCall(w, c, token)
    ensures var w' := Run(w, more);
            && (forall c :: c in able ==> Rotated(w', c, token))
            && (forall c :: c in w.calls && c !in able ==> c in w'.calls && w'.calls[c] == w.calls[c])
    decreases |able|
  {
    if c :| c in able {
      var first := FinishOne(w, c, token);
      var w1 := Run(w, first);
      var rest := FinishAll(w1, able - {c}, token);
      more := first + rest;
      RunConcat(w, first, rest);
    } else {
      more := [];
    }
  }

  // ---- No other rotation can ----

  /** The rotation has failed, or will fail at its lookup or its check. */
  predicate Stuck(pc: Pc, now: int) {
    match pc
    case RefreshLookup => true
    case RefreshCheck(s) => !Valid(s, now)
    case Done(Failed(_)) => true
    case _ => false
  }

  /** Row `p` can be exchanged no more, except by the rotations in `able`. */
  ghost predicate SpentBut(w: World, p: int, able: set<int>) {
    && p in w.st.table && !Usable(w.st, p)
    && forall c :: c in w.calls && c !in able && w.calls[c].req == RefreshReq(w.st.table[p].token) ==>
         Stuck(w.calls[c].pc, w.st.now)
  }

  lemma StuckStays(cfg: Config, st: State, call: AuthMachine.Call, ch: Choice, p: int)
    requires TokensUnique(st.table) && p in st.table && !Usable(st, p)
    requires call.req == RefreshReq(st.table[p].token) && Stuck(call.pc, st.now)
    ensures Stuck(Decide(cfg, st, call, ch).pc, st.now)
  {
  }

  lemma UnusableStays(s: State, s': State, p: int)
    requires Grows(s, s') && p in s.table && !Usable(s, p)
    ensures p in s'.table && !Usable(s', p) && s'.table[p].token == s.table[p].token
  {
  }

  lemma ElapseSpent(w: World, dt: nat, p: int, able: set<int>)
    requires SpentBut(w, p, able)
    ensures SpentBut(Elapse(w, dt), p, able)
  {
  }

  lemma GoSpent(w: World, c: int, ch: Choice, p: int, able: set<int>)
    requires TokensUnique(w.st.table) && SpentBut(w, p, able) && Enabled(w, Go(c, ch))
    requires Grows(w.st, Next(w, Go(c, ch)).st)
    ensures SpentBut(Next(w, Go(c, ch)), p, able)
  {
    var now := Elapse(w, ch.dt);
    ElapseSpent(w, ch.dt, p, able);
    UnusableStays(w.st, Next(w, Go(c, ch)).st, p);
    NowStays(now.st, c, Decide(w.cfg, now.st, w.calls[c], ch).effect);
    if c !in able && w.calls[c].req == RefreshReq(w.st.table[p].token) {
      StuckStays(w.cfg, now.st, w.calls[c], ch, p);
    }
  }

  lemma StepSpent(w: World, s: Step, p: int, able: set<int>)
    requires TableInv(w) && SpentBut(w, p, able)
    ensures SpentBut(Next(w, s), p, able)
  {
    StepGrows(w, s);
    match s
    case Tick(dt) => ElapseSpent(w, dt, p, able);
    case Expel(_) =>
    case Start(_, _) =>
    case Go(c, ch) => if Enabled(w, s) { GoSpent(w, c, ch, p, able); }
  }

  lemma {:induction false} RunSpent(w: World, more: seq<Step>, p: int, able: set<int>)
    requires TableInv(w) && SpentBut(w, p, able)
    ensures SpentBut(Run(w, more), p, able)
  {
    if more != [] {
      var before := more[..|more| - 1];
      RunSpent(w, before, p, able);
      RunTable(w, before);
      RunLast(w, more);
      StepSpent(Run(w, before), more[|more| - 1], p, able);
    }
  }

  ghost function AbleCalls(w: World, token: Token): set<int> {
    set c | c in w.calls && AbleCall(w, c, token)
  }

  lemma SpentNow(w: World, p: int)
    requires Lineage.Inv(w) && p in w.st.table && !Usable(w.st, p)
    ensures SpentBut(w, p, AbleCalls(w, w.st.table[p].token))
  {
    var token := w.st.table[p].token;
    forall c | c in w.calls && c !in AbleCalls(w, token) && w.calls[c].req == RefreshReq(token)
      ensures Stuck(w.calls[c].pc, w.st.now)
    {
      assert Lineage.CallInv(w.st, c, w.calls[c]);
    }
  }

  /** Once a row is revoked or past its expiry, only the rotations that are able can ever succeed. */
  lemma OnlyAbleSucceed(w: World, more: seq<Step>, p: int, c: int)
    requires Lineage.Inv(w) && p in w.st.table && !Usable(w.st, p)
    ensures Rotated(Run(w, more), c, w.st.table[p].token) ==> AbleCall(w, c, w.st.table[p].token)
  {
    var able := AbleCalls(w, w.st.table[p].token);
    SpentNow(w, p);
    RunSpent(w, more, p, able);
    RunTable(w, more);
  }

  // ---- When a token can be used twice ----

  ghost predicate UsedTwice(w: World, more: seq<Step>, token: Token, c: int, d: int) {
    c != d && Rotated(Run(w, more), c, token) && Rotated(Run(w, more), d, token)
  }

  ghost predicate TwoAble(w: World, token: Token) {
    exists c, d :: c != d && AbleCall(w, c, token) && AbleCall(w, d, token)
  }

  /** A new rotation of a usable row, up to its check. */
  lemma Joins(w: World, p: int, c: int) returns (more: seq<Step>)
    requires TokensUnique(w.st.table) && Usable(w.st, p) && c !in w.calls
    ensures var w' := Run(w, more);
            && w'.st == w.st && AbleCall(w', c, w.st.table[p].token)
            && w'.calls.Keys == w.calls.Keys + {c} && forall d :: d in w.calls ==> w'.calls[d] == w.calls[d]
  {
    var start, look := Start(c, RefreshReq(w.st.table[p].token)), Go(c, Choice(0, Fine, "", 0));
    more := [start] + [look];
    RunConcat(w, [start], [look]);
    assert [start][..0] == [] && [look][..0] == [];
    RunLast(w, [start]);
    RunLast(Next(w, start), [look]);
    LookupIs(Next(w, start), c, look.choice);
  }

  lemma TwoJoin(w: World, p: int) returns (more: seq<Step>, c: int, d: int)
    requires TokensUnique(w.st.table) && Usable(w.st, p)
    ensures c != d && AbleCall(Run(w, more), c, w.st.table[p].token) && AbleCall(Run(w, more), d, w.st.table[p].token)
  {
    c := AboveAll(w.calls.Keys);
    d := c + 1;
    var first := Joins(w, p, c);
    var second := Joins(Run(w, first), p, d);
    more := first + second;
    RunConcat(w, first, second);
  }

  /** From any moment of any interleaving, two rotations of the token of row `p` can both have succeeded
      in some continuation exactly if the row is active and not past its expiry, or two rotations have
      already passed the check, or are about to. */
  lemma UsedTwiceIff(cfg: Config, before: seq<Step>, p: int)
    ensures var w := Run(Init(cfg), before);
            p in w.st.table ==>
              var token := w.st.table[p].token;
              (exists more, c, d :: UsedTwice(w, more, token, c, d)) <==> Usable(w.st, p) || TwoAble(w, token)
  {
    var w := Run(Init(cfg), before);
    Lineage.RunKeeps(Init(cfg), before);
    if p in w.st.table {
      var token := w.st.table[p].token;
      if TwoAble(w, token) {
        BothSucceed(w, [], token);
      } else if Usable(w.st, p) {
        var more, c, d := TwoJoin(w, p);
        BothSucceed(w, more, token);
      } else if more, c, d :| UsedTwice(w, more, token, c, d) {
        OnlyAbleSucceed(w, more, p, c);
        OnlyAbleSucceed(w, more, p, d);
      }
    }
  }

  lemma BothSucceed(w: World, first: seq<Step>, token: Token)
    requires TwoAble(Run(w, first), token)
    ensures exists more, c, d :: UsedTwice(w, more, token, c, d)
  {
    var c, d :| c != d && AbleCall(Run(w, first), c, token) && AbleCall(Run(w, first), d, token);
    var rest := FinishAll(Run(w, first), {c, d}, token);
    RunConcat(w, first, rest);
    assert UsedTwice(w, first + rest, token, c, d);
  }

  // ---- Reuse after a whole rotation ----

  /** A whole rotation of `token` by some further call succeeds. */
  ghost predicate Reusable(w: World, token: Token, d: int, env: Env) {
    d !in w.calls && Novel(w, env) && Rotated(Completed(w, d, RefreshReq(token), env), d, token)
  }

  lemma {:induction false} CalmRotation(w: World, d: int, token: Token, env: Env, p: int, k: nat)
    requires TokensUnique(w.st.table) && Usable(w.st, p) && w.st.table[p].token == token && d !in w.calls
    requires Novel(w, env) && forall i: nat :: env(i).fault == Fine && env(i).dt == 0
    requires k >= 1
    ensures AbleCall(Progress(w, d, RefreshReq(token), env, k), d, token)
    ensures Progress(w, d, RefreshReq(token), env, k).st.now == w.st.now
  {
    var req := RefreshReq(token);
    ProgressNext(w, d, req, env, k);
    if k == 1 {
      LookupIs(Progress(w, d, req, env, 0), d, env(0));
    } else {
      CalmRotation(w, d, token, env, p, k - 1);
      var v := Progress(w, d, req, env, k - 1);
      ProgressShortens(w, d, req, env, k - 1);
      if !v.calls[d].pc.Done? { AbleStep(v, d, token, env(k - 1)); }
    }
  }

  lemma CalmEnv(w: World) returns (env: Env)
    ensures Novel(w, env) && forall i: nat :: env(i).fault == Fine && env(i).dt == 0
  {
    var novel := Unused(w.st.drawn);
    env := (i: nat) => Choice(0, Fine, novel, 0);
  }

  /** After a whole rotation that issued a pair, the row it replaced is revoked exactly if its revocation
      was not lost, and the same token can be exchanged again exactly if it was lost and the token has
      not expired meanwhile. */
  lemma SpentIff(cfg: Config, before: seq<Step>, c: int, token: Token, env: Env) returns (p: int)
    requires c !in Run(Init(cfg), before).calls
    ensures var w := Run(Init(cfg), before);
            var w' := Completed(w, c, RefreshReq(token), env);
            Rotated(w', c, token) ==>
              && p in w'.st.table && w'.st.table[p].token == token
              && (w'.st.table[p].status.Revoked? <==> env(REFRESH_REVOCATION).fault != Lost)
              && ((exists d, env' :: Reusable(w', token, d, env'))
                  <==> env(REFRESH_REVOCATION).fault == Lost && w'.st.now <= w'.st.table[p].refreshExpiresAt)
  {
    var w := Run(Init(cfg), before);
    RunCfg(Init(cfg), before);
    var found := RotationIs(w, c, token, env);
    if found.None? {
      p := 0;
    } else {
      p := found.value;
      ReusableIff(cfg, before, c, token, env, p);
    }
  }

  lemma ReusableIff(cfg: Config, before: seq<Step>, c: int, token: Token, env: Env, p: int)
    requires var w := Run(Init(cfg), before);
             c !in w.calls && p in w.st.table && w.st.table[p].token == token && w.st.table[p].status.Active?
    requires p in Completed(Run(Init(cfg), before), c, RefreshReq(token), env).st.table
    requires Completed(Run(Init(cfg), before), c, RefreshReq(token), env).st.table[p].token == token
    ensures var w' := Completed(Run(Init(cfg), before), c, RefreshReq(token), env);
            (exists d, env' :: Reusable(w', token, d, env')) <==> Usable(w'.st, p)
  {
    var w' := Completed(Run(Init(cfg), before), c, RefreshReq(token), env);
    var script := Script(c, RefreshReq(token), env, LONGEST);
    ScriptRuns(Run(Init(cfg), before), c, RefreshReq(token), env, LONGEST);
    RunConcat(Init(cfg), before, script);
    Lineage.RunKeeps(Init(cfg), before + script);
    if Usable(w'.st, p) {
      var d := AboveAll(w'.calls.Keys);
      var calm := CalmEnv(w');
      CalmRotation(w', d, token, calm, p, LONGEST);
      CallsFinish(w', d, RefreshReq(token), calm);
      assert Reusable(w', token, d, calm);
    } else if d, env' :| Reusable(w', token, d, env') {
      ScriptRuns(w', d, RefreshReq(token), env', LONGEST);
      OnlyAbleSucceed(w', Script(d, RefreshReq(token), env', LONGEST), p, d);
    }
  }

  // ---- One such continuation, row by row ----

  /** Two rotations of one token that both look it up before either revokes it both succeed, and leave
      two active sessions. */
  lemma TokensCanBeUsedTwice(cfg: Config) returns (run: seq<Step>)
    requires 0 <= cfg.refreshTtl
    ensures var w := Run(Init(cfg), run);
            && 2 in w.calls && 3 in w.calls && w.calls[2].req == RefreshReq("a") && w.calls[3].req == RefreshReq("a")
            && w.calls[2].pc.Done? && w.calls[2].pc.outcome.Issued?
            && w.calls[3].pc.Done? && w.calls[3].pc.outcome.Issued?
            && 2 in w.st.table && 3 in w.st.table && w.st.table[2].status.Active? && w.st.table[3].status.Active?
  {
    var w;
    run, w := TwoLookups(cfg);
    run, w := RotateMoves(Init(cfg), run, w, 2, "b", 1);
    assert w.st.table[2].token == "b" && w.calls[3].pc.session.id == 1;
    run, w := RotateMoves(Init(cfg), run, w, 3, "c", 1);
  }

  lemma TwoLookups(cfg: Config) returns (run: seq<Step>, w: World)
    requires 0 <= cfg.refreshTtl
    ensures w == Run(Init(cfg), run) && w.st.drawn == {"a"} && w.st.nextId == 2 && w.st.table.Keys == {1}
    ensures 2 in w.calls && w.calls[2].req == RefreshReq("a") && w.calls[2].pc == RefreshRevoke(Read(w.st.table, 1))
    ensures 3 in w.calls && w.calls[3].req == RefreshReq("a") && w.calls[3].pc == RefreshRevoke(Read(w.st.table, 1))
  {
    var w0 := Init(cfg);
    run, w := LoginMoves(w0, [], w0, 1, 7, 1, "a");
    run, w := LookupMoves(w0, run, w, 2, "a", 1);
    run, w := LookupMoves(w0, run, w, 3, "a", 1);
  }

  /** A rotation up to the point where it has passed the check. */
  lemma LookupMoves(w0: World, run: seq<Step>, w: World, c: int, token: Token, id: int)
    returns (run': seq<Step>, w': World)
    requires w == Run(w0, run) && c !in w.calls && TokensUnique(w.st.table)
    requires id in w.st.table && w.st.table[id].token == token && w.st.table[id].status.Active?
    requires w.st.now <= w.st.table[id].refreshExpiresAt
    ensures w' == Run(w0, run') && w'.cfg == w.cfg && w'.st == w.st
    ensures var call := AuthMachine.Call.Call(RefreshReq(token), w.st.now, RefreshRevoke(Read(w.st.table, id)));
            w'.calls == w.calls[c := call]
  {
    run', w' := Extend(w0, run, Start(c, RefreshReq(token)));
    run', w' := Extend(w0, run', Go(c, Choose("")));
    assert w'.calls[c].pc == RefreshCheck(Read(w.st.table, id));
    run', w' := Extend(w0, run', Go(c, Choose("")));
  }

  /** The rest of that rotation, in which nothing fails. */
  lemma RotateMoves(w0: World, run: seq<Step>, w: World, c: int, novel: Token, id: int)
    returns (run': seq<Step>, w': World)
    requires w == Run(w0, run) && c in w.calls && novel !in w.st.drawn
    requires w.calls[c].pc.RefreshRevoke? && w.calls[c].pc.session.id == id && id in w.st.table
    requires id < w.st.nextId
    ensures w' == Run(w0, run') && w'.cfg == w.cfg
    ensures var next := w.st.nextId;
            && w'.st.nextId == next + 1 && w'.st.drawn == w.st.drawn + {novel}
            && w'.st.table.Keys == w.st.table.Keys + {next} && w'.st.table[next].status.Active?
            && (forall i :: i in w.st.table && i != next && w.st.table[i].token != w.calls[c].req.Bearer() ==>
                  w'.st.table[i] == w.st.table[i])
            && w'.calls.Keys == w.calls.Keys && w'.calls[c].req == w.calls[c].req
            && (forall d :: d in w.calls && d != c ==> w'.calls[d] == w.calls[d])
            && w'.calls[c].pc.Done? && w'.calls[c].pc.outcome.Issued? && w'.st.table[next].token == novel
  {
    var s := w.calls[c].pc.session;
    run', w' := Extend(w0, run, Go(c, Choose("")));
    assert w'.calls[c].pc == RefreshEvict(s);
    run', w' := Extend(w0, run', Go(c, Choose("")));
    assert w'.calls[c].pc == MakeToken(s.userId, s.appId, Some(id));
    assert w'.st.drawn == w.st.drawn;
    run', w' := IssueMoves(w0, run', w', c, novel);
  }
}
